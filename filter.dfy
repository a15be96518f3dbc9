/**
 * The forwarding decision of the polling relay: the keyword list typed at the
 * prompt and the test that decides whether a message is sent on.
 */
module Filter {
  import opened Options
  import opened Text

  /** The keyword list made from the operator's answer: the answer split at every
      comma. Pieces are neither trimmed nor lower-cased, and a blank answer gives
      one empty keyword. */
  function ParseKeywords(answer: string): (keywords: seq<string>)
    ensures keywords != []
    ensures forall k :: k in keywords ==> ',' !in k
    ensures Join(keywords, ',') == answer
  {
    JoinSplit(answer, ',');
    Split(answer, ',')
  }

  /** Python truthiness of `message.text`: present and not empty. */
  predicate HasText(text: Option<string>)
  {
    text.Some? && text.value != ""
  }

  /** The decision for one message. With a non-empty keyword list, a message with
      text is forwarded when some keyword occurs in its lower-cased text; with an
      empty list, every message with text is forwarded. */
  predicate ShouldForward(keywords: seq<string>, text: Option<string>)
  {
    if keywords != [] && HasText(text) then
      exists k :: k in keywords && Contains(ToLower(text.value), k)
    else
      HasText(text)
  }

  /** A message with no text, or with empty text, is never forwarded. */
  lemma TextlessNeverForwarded(keywords: seq<string>, text: Option<string>)
    requires !HasText(text)
    ensures !ShouldForward(keywords, text)
  {
  }

  /** With keywords, a message with text is forwarded exactly when some keyword
      starts at some position of the lower-cased text. */
  lemma KeywordMatch(keywords: seq<string>, t: string)
    requires keywords != [] && t != ""
    ensures ShouldForward(keywords, Some(t)) <==>
      exists k, i :: k in keywords && 0 <= i <= |t| && k <= ToLower(t)[i..]
  {
    var lower := ToLower(t);
    if ShouldForward(keywords, Some(t)) {
      var k :| k in keywords && Contains(lower, k);
      ContainsAt(lower, k);
      var i :| 0 <= i <= |lower| && k <= lower[i..];
      assert k in keywords && 0 <= i <= |t| && k <= ToLower(t)[i..];
    }
    if exists k, i :: k in keywords && 0 <= i <= |t| && k <= ToLower(t)[i..] {
      var k, i :| k in keywords && 0 <= i <= |t| && k <= lower[i..];
      ContainsAt(lower, k);
      assert Contains(lower, k);
    }
  }

  /** Only the text is case-folded: a keyword holding an upper-case letter never
      matches, so a list made only of such keywords forwards nothing. */
  lemma UpperCaseKeywordsNeverMatch(keywords: seq<string>, text: Option<string>)
    requires keywords != []
    requires forall k :: k in keywords ==> HasUpper(k)
    ensures !ShouldForward(keywords, text)
  {
    if HasText(text) {
      forall k | k in keywords
        ensures !Contains(ToLower(text.value), k)
      {
        ToLowerHasNoUpper(text.value);
        UpperNeverContained(ToLower(text.value), k);
      }
    }
  }

  /** With an empty keyword list every message with text is forwarded. */
  lemma EmptyKeywordsForwardAllText(text: Option<string>)
    ensures ShouldForward([], text) <==> HasText(text)
  {
  }

  /** A blank answer at the keyword prompt parses to one empty keyword, which
      occurs in every text, so every message with text is forwarded. */
  lemma BlankAnswerForwardsAllText(text: Option<string>)
    ensures ParseKeywords("") == [""]
    ensures ShouldForward(ParseKeywords(""), text) <==> HasText(text)
  {
    if HasText(text) {
      assert "" in ParseKeywords("");
      assert Contains(ToLower(text.value), "");
    }
  }
}
