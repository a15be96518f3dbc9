/**
 * The text cleaner: each removal pattern in turn is deleted from the text.
 * The regular-expression engine is not modelled; `sub(pattern, text)` stands for
 * `re.sub(pattern, "", text)`.
 */
module Cleaning {
  import opened Text

  type Substitution = (string, string) -> string

  /** The left fold of `sub` over `patterns`: the last pattern is applied to the
      result of all earlier ones. */
  function Clean(sub: Substitution, patterns: seq<string>, text: string): string
  {
    if patterns == [] then text
    else sub(patterns[|patterns| - 1], Clean(sub, patterns[..|patterns| - 1], text))
  }

  /** The fold read from the front: the first pattern is applied to the text, and
      the remaining patterns to its result. */
  lemma {:induction false} CleanFirstPattern(sub: Substitution, patterns: seq<string>, text: string)
    requires patterns != []
    ensures Clean(sub, patterns, text) == Clean(sub, patterns[1..], sub(patterns[0], text))
  {
    if |patterns| > 1 {
      var init := patterns[..|patterns| - 1];
      CleanFirstPattern(sub, init, text);
      assert init[1..] == patterns[1..][..|patterns[1..]| - 1];
    }
  }

  /** Cleaning with `ps + qs` is cleaning with `ps` and then with `qs`. */
  lemma {:induction false} CleanConcat(sub: Substitution, ps: seq<string>, qs: seq<string>, text: string)
    ensures Clean(sub, ps + qs, text) == Clean(sub, qs, Clean(sub, ps, text))
    decreases |qs|
  {
    if qs == [] {
      assert ps + qs == ps;
    } else {
      var init := qs[..|qs| - 1];
      CleanConcat(sub, ps, init, text);
      assert (ps + qs)[..|ps + qs| - 1] == ps + init;
    }
  }

  /** `sub` only deletes characters, as substitution by the empty string does. */
  ghost predicate OnlyDeletes(sub: Substitution)
  {
    forall p, t :: IsSubsequence(sub(p, t), t)
  }

  /** When each substitution only deletes characters, so does the whole cleaner. */
  lemma {:induction false} CleanOnlyDeletes(sub: Substitution, patterns: seq<string>, text: string)
    requires OnlyDeletes(sub)
    ensures IsSubsequence(Clean(sub, patterns, text), text)
  {
    if patterns == [] {
      SubsequenceReflexive(text);
    } else {
      var init := patterns[..|patterns| - 1];
      CleanOnlyDeletes(sub, init, text);
      var mid := Clean(sub, init, text);
      SubsequenceTransitive(sub(patterns[|patterns| - 1], mid), mid, text);
    }
  }
}
