/**
 * One pass of the polling relay. For each source chat in list order the pass
 * fetches the messages newer than the chat's cursor, handles them in the reverse
 * of the order in which they were returned, forwards each accepted message,
 * cleaned, to every destination in list order, and moves the chat's cursor up to
 * the highest message id it saw.
 *
 * The chat platform is not modelled: `fetch(chat, minId)` stands for
 * `get_messages(chat, min_id=minId)`, `newest(chat)` for the id of the newest
 * message of a chat (absent when the chat is empty), and every
 * `send_message(destination, text)` is recorded as an entry of the log `sent`.
 */
module Relay {
  import opened Options
  import opened Text
  import opened Filter
  import opened Cleaning

  /** A message as the relay sees it: its id in its chat and its text, if any. */
  datatype Msg = Msg(id: int, text: Option<string>)

  /** One `send_message(destination, text)` call. */
  datatype Send = Send(destination: int, text: string)

  type Fetch = (int, int) -> seq<Msg>

  /** What a pass changes: the per-chat cursors and the log of sends made so far. */
  datatype RelayState = RelayState(cursor: map<int, int>, sent: seq<Send>)

  function Max(a: int, b: int): int
  {
    if a < b then b else a
  }

  /** The cursors seeded before the first pass: the id of each source chat's newest
      message. A source chat without messages makes the seeding fail. */
  function InitialCursor(sources: seq<int>, newest: int -> Option<int>): (r: Option<map<int, int>>)
    ensures r.Some? <==> forall c :: c in sources ==> newest(c).Some?
    ensures r.Some? ==> r.value.Keys == set c | c in sources
    ensures r.Some? ==> forall c :: c in sources ==> r.value[c] == newest(c).value
  {
    if forall c :: c in sources ==> newest(c).Some? then
      Some(map c | c in sources :: newest(c).value)
    else
      None
  }

  /** The sends for one accepted message: its text to each destination, in order. */
  function FanoutSends(destinations: seq<int>, text: string): (r: seq<Send>)
    ensures |r| == |destinations|
  {
    if destinations == [] then []
    else [Send(destinations[0], text)] + FanoutSends(destinations[1..], text)
  }

  /** The fan-out sends the same text exactly once to each destination, in the
      order of the destination list. */
  lemma {:induction false} FanoutSendsAt(destinations: seq<int>, text: string, i: nat)
    requires i < |destinations|
    ensures FanoutSends(destinations, text)[i] == Send(destinations[i], text)
  {
    if i > 0 {
      FanoutSendsAt(destinations[1..], text, i - 1);
    }
  }

  /** The sends for one message: the cleaned text to every destination when the
      message is accepted, nothing otherwise. */
  function MessageSends(sub: Substitution, patterns: seq<string>, keywords: seq<string>,
                        destinations: seq<int>, m: Msg): seq<Send>
  {
    if ShouldForward(keywords, m.text) then
      FanoutSends(destinations, Clean(sub, patterns, m.text.value))
    else
      []
  }

  /** `MessageSends` for fixed settings, as a function of the message. */
  function Handling(sub: Substitution, patterns: seq<string>, keywords: seq<string>,
                    destinations: seq<int>): Msg -> seq<Send>
  {
    m => MessageSends(sub, patterns, keywords, destinations, m)
  }

  /** The sends for a batch handled from its last message to its first, where
      `handle` gives the sends for one message: the messages after the first are
      handled before it. */
  function BatchSends(handle: Msg -> seq<Send>, batch: seq<Msg>): seq<Send>
  {
    if batch == [] then [] else BatchSends(handle, batch[1..]) + handle(batch[0])
  }

  /** A chat's cursor after a batch, its messages taken last to first. */
  function Advance(cursor: int, batch: seq<Msg>): (r: int)
    ensures r >= cursor
  {
    if batch == [] then cursor else Max(Advance(cursor, batch[1..]), batch[0].id)
  }

  /** The advanced cursor is the maximum of the old cursor and every id of the
      batch, whether or not the message was forwarded. */
  lemma {:induction false} AdvanceIsMax(cursor: int, batch: seq<Msg>)
    ensures forall i :: 0 <= i < |batch| ==> Advance(cursor, batch) >= batch[i].id
    ensures Advance(cursor, batch) == cursor
         || exists i :: 0 <= i < |batch| && Advance(cursor, batch) == batch[i].id
  {
    if batch != [] {
      AdvanceIsMax(cursor, batch[1..]);
      forall i | 0 < i < |batch| ensures Advance(cursor, batch[1..]) >= batch[i].id {
        assert batch[1..][i - 1] == batch[i];
      }
      if Advance(cursor, batch) != cursor && Advance(cursor, batch) != batch[0].id {
        var j :| 0 <= j < |batch| - 1 && Advance(cursor, batch[1..]) == batch[1..][j].id;
        assert batch[j + 1] == batch[1..][j];
      }
    }
  }

  /** Serving one chat: its batch is fetched with its current cursor, the sends of
      the batch are appended to the log and its cursor is advanced past the batch. */
  function ServeChat(sub: Substitution, patterns: seq<string>, keywords: seq<string>,
                     destinations: seq<int>, fetch: Fetch, s: RelayState, chat: int): (r: RelayState)
    requires chat in s.cursor
    ensures r.cursor.Keys == s.cursor.Keys
  {
    var batch := fetch(chat, s.cursor[chat]);
    RelayState(s.cursor[chat := Advance(s.cursor[chat], batch)],
               s.sent + BatchSends(Handling(sub, patterns, keywords, destinations), batch))
  }

  /** One pass: every source chat served in list order, each fetched with the
      cursor that the earlier chats of the pass left. */
  function RunPass(sub: Substitution, patterns: seq<string>, keywords: seq<string>,
                   destinations: seq<int>, fetch: Fetch, s: RelayState, sources: seq<int>): (r: RelayState)
    requires forall c :: c in sources ==> c in s.cursor
    ensures r.cursor.Keys == s.cursor.Keys
    decreases |sources|
  {
    if sources == [] then s
    else
      var before := RunPass(sub, patterns, keywords, destinations, fetch, s, sources[..|sources| - 1]);
      ServeChat(sub, patterns, keywords, destinations, fetch, before, sources[|sources| - 1])
  }

  /** A message without text, or with empty text, produces no sends, whatever the
      keywords are. */
  lemma TextlessMessageSendsNothing(sub: Substitution, patterns: seq<string>, keywords: seq<string>,
                                    destinations: seq<int>, m: Msg)
    requires !HasText(m.text)
    ensures MessageSends(sub, patterns, keywords, destinations, m) == []
  {
    TextlessNeverForwarded(keywords, m.text);
  }

  /** Within a batch, every send for the messages from position `k` on comes before
      every send for the messages before `k`: later messages are handled first. */
  lemma {:induction false} BatchSendsSplit(handle: Msg -> seq<Send>, batch: seq<Msg>, k: nat)
    requires k <= |batch|
    ensures BatchSends(handle, batch) == BatchSends(handle, batch[k..]) + BatchSends(handle, batch[..k])
  {
    if k == 0 {
      assert batch[0..] == batch;
    } else {
      BatchSendsSplit(handle, batch[1..], k - 1);
      assert batch[1..][k - 1..] == batch[k..];
      assert batch[..k][1..] == batch[1..][..k - 1];
      assert batch[..k][0] == batch[0];
    }
  }

  function Reverse(batch: seq<Msg>): (r: seq<Msg>)
    ensures |r| == |batch|
  {
    if batch == [] then [] else Reverse(batch[1..]) + [batch[0]]
  }

  /** The sends for messages handled in the order given. */
  function InOrderSends(handle: Msg -> seq<Send>, msgs: seq<Msg>): seq<Send>
  {
    if msgs == [] then [] else handle(msgs[0]) + InOrderSends(handle, msgs[1..])
  }

  lemma {:induction false} InOrderSendsConcat(handle: Msg -> seq<Send>, xs: seq<Msg>, ys: seq<Msg>)
    ensures InOrderSends(handle, xs + ys) == InOrderSends(handle, xs) + InOrderSends(handle, ys)
  {
    if xs == [] {
      assert xs + ys == ys;
    } else {
      InOrderSendsConcat(handle, xs[1..], ys);
      assert (xs + ys)[1..] == xs[1..] + ys;
    }
  }

  /** A batch is handled in the reverse of the order in which it was returned. */
  lemma {:induction false} BatchSendsReversed(handle: Msg -> seq<Send>, batch: seq<Msg>)
    ensures BatchSends(handle, batch) == InOrderSends(handle, Reverse(batch))
  {
    if batch != [] {
      BatchSendsReversed(handle, batch[1..]);
      InOrderSendsConcat(handle, Reverse(batch[1..]), [batch[0]]);
      assert InOrderSends(handle, [batch[0]]) == handle(batch[0]) + InOrderSends(handle, []);
      assert handle(batch[0]) + [] == handle(batch[0]);
    }
  }

  /** Every send of a batch goes to a listed destination and carries the cleaned
      text of an accepted message of that batch. */
  lemma {:induction false} BatchSendsAreForwards(sub: Substitution, patterns: seq<string>, keywords: seq<string>,
                                                destinations: seq<int>, batch: seq<Msg>, s: Send)
    requires s in BatchSends(Handling(sub, patterns, keywords, destinations), batch)
    ensures s.destination in destinations
    ensures exists m :: m in batch && ShouldForward(keywords, m.text)
                     && s.text == Clean(sub, patterns, m.text.value)
  {
    var m := batch[0];
    if s in MessageSends(sub, patterns, keywords, destinations, m) {
      var i :| 0 <= i < |destinations| && s == FanoutSends(destinations, Clean(sub, patterns, m.text.value))[i];
      FanoutSendsAt(destinations, Clean(sub, patterns, m.text.value), i);
    } else {
      BatchSendsAreForwards(sub, patterns, keywords, destinations, batch[1..], s);
      var m' :| m' in batch[1..] && ShouldForward(keywords, m'.text)
                && s.text == Clean(sub, patterns, m'.text.value);
      assert m' in batch;
    }
  }

  /** A pass never lowers a cursor. */
  lemma {:induction false} PassNeverLowersCursor(sub: Substitution, patterns: seq<string>, keywords: seq<string>,
                                                destinations: seq<int>, fetch: Fetch, s: RelayState,
                                                sources: seq<int>, c: int)
    requires forall c :: c in sources ==> c in s.cursor
    requires c in s.cursor
    ensures RunPass(sub, patterns, keywords, destinations, fetch, s, sources).cursor[c] >= s.cursor[c]
    decreases |sources|
  {
    if sources != [] {
      PassNeverLowersCursor(sub, patterns, keywords, destinations, fetch, s, sources[..|sources| - 1], c);
      var before := RunPass(sub, patterns, keywords, destinations, fetch, s, sources[..|sources| - 1]);
      var chat := sources[|sources| - 1];
      if c == chat {
        assert before.cursor[c] <= Advance(before.cursor[c], fetch(chat, before.cursor[chat]));
      }
    }
  }

  /** A pass leaves the cursor of a chat that is not a source unchanged. */
  lemma {:induction false} PassKeepsOtherCursors(sub: Substitution, patterns: seq<string>, keywords: seq<string>,
                                                destinations: seq<int>, fetch: Fetch, s: RelayState,
                                                sources: seq<int>, c: int)
    requires forall c :: c in sources ==> c in s.cursor
    requires c in s.cursor && c !in sources
    ensures RunPass(sub, patterns, keywords, destinations, fetch, s, sources).cursor[c] == s.cursor[c]
    decreases |sources|
  {
    if sources != [] {
      var init := sources[..|sources| - 1];
      assert forall j :: 0 <= j < |init| ==> init[j] == sources[j];
      PassKeepsOtherCursors(sub, patterns, keywords, destinations, fetch, s, init, c);
    }
  }

  /** A pass only appends to the log of sends. */
  lemma {:induction false} PassExtendsLog(sub: Substitution, patterns: seq<string>, keywords: seq<string>,
                                         destinations: seq<int>, fetch: Fetch, s: RelayState,
                                         sources: seq<int>)
    requires forall c :: c in sources ==> c in s.cursor
    ensures var r := RunPass(sub, patterns, keywords, destinations, fetch, s, sources);
            |r.sent| >= |s.sent| && r.sent[..|s.sent|] == s.sent
    decreases |sources|
  {
    if sources != [] {
      var before := RunPass(sub, patterns, keywords, destinations, fetch, s, sources[..|sources| - 1]);
      PassExtendsLog(sub, patterns, keywords, destinations, fetch, s, sources[..|sources| - 1]);
      var r := RunPass(sub, patterns, keywords, destinations, fetch, s, sources);
      var chat := sources[|sources| - 1];
      assert r.sent == before.sent + BatchSends(Handling(sub, patterns, keywords, destinations),
                                                fetch(chat, before.cursor[chat]));
      assert r.sent[..|before.sent|] == before.sent;
      assert r.sent[..|s.sent|] == r.sent[..|before.sent|][..|s.sent|];
    }
  }

  /** A pass over `a + b` is a pass over `a` followed by a pass over `b`: the chats
      of `a` are served, and their sends logged, before those of `b`. */
  lemma {:induction false} PassConcat(sub: Substitution, patterns: seq<string>, keywords: seq<string>,
                                     destinations: seq<int>, fetch: Fetch, s: RelayState,
                                     a: seq<int>, b: seq<int>)
    requires forall c :: c in a ==> c in s.cursor
    requires forall c :: c in b ==> c in s.cursor
    ensures RunPass(sub, patterns, keywords, destinations, fetch, s, a + b)
         == RunPass(sub, patterns, keywords, destinations, fetch,
                    RunPass(sub, patterns, keywords, destinations, fetch, s, a), b)
    decreases |b|
  {
    if b == [] {
      assert a + b == a;
    } else {
      PassConcat(sub, patterns, keywords, destinations, fetch, s, a, b[..|b| - 1]);
      assert (a + b)[..|a + b| - 1] == a + b[..|b| - 1];
      assert (a + b)[|a + b| - 1] == b[|b| - 1];
    }
  }

  /**
   * The relay: the removal patterns it was created with, the per-chat cursors
   * (highest message id seen) and the log of the sends it has made.
   */
  class Forwarder {
    const patterns: seq<string>
    const sub: Substitution
    var cursor: map<int, int>
    var sent: seq<Send>

    constructor (patterns: seq<string>, sub: Substitution)
      ensures this.patterns == patterns && this.sub == sub
      ensures cursor == map[] && sent == []
    {
      this.patterns := patterns;
      this.sub := sub;
      cursor := map[];
      sent := [];
    }

    /** Seeds every source chat's cursor with the id of its newest message; fails,
        changing nothing, when a source chat has no message. */
    method Seed(sources: seq<int>, newest: int -> Option<int>) returns (ok: bool)
      modifies this`cursor
      ensures ok <==> forall c :: c in sources ==> newest(c).Some?
      ensures ok ==> cursor == InitialCursor(sources, newest).value
      ensures !ok ==> cursor == old(cursor)
    {
      var seeded := InitialCursor(sources, newest);
      ok := seeded.Some?;
      if ok {
        cursor := seeded.value;
      }
    }

    /** Removes every pattern in turn from `text`. */
    method CleanMessage(text: string) returns (cleaned: string)
      ensures cleaned == Clean(sub, patterns, text)
    {
      cleaned := text;
      for i := 0 to |patterns|
        invariant cleaned == Clean(sub, patterns[..i], text)
      {
        assert patterns[..i + 1][..i] == patterns[..i];
        cleaned := sub(patterns[i], cleaned);
      }
      assert patterns[..|patterns|] == patterns;
    }

    /** Sends `text` to every destination in list order. */
    method SendToAll(destinations: seq<int>, text: string)
      modifies this`sent
      ensures sent == old(sent) + FanoutSends(destinations, text)
    {
      for i := 0 to |destinations|
        invariant sent == old(sent) + FanoutSends(destinations[..i], text)
      {
        FanoutPrefix(destinations, i + 1, text);
        sent := sent + [Send(destinations[i], text)];
      }
      assert destinations[..|destinations|] == destinations;
    }

    /** Handles one fetched batch of `chat`, from its last message to its first. */
    method ProcessBatch(keywords: seq<string>, destinations: seq<int>, chat: int, batch: seq<Msg>)
      requires chat in cursor
      modifies this`cursor, this`sent
      ensures cursor == old(cursor)[chat := Advance(old(cursor)[chat], batch)]
      ensures sent == old(sent) + BatchSends(Handling(sub, patterns, keywords, destinations), batch)
    {
      ghost var handle := Handling(sub, patterns, keywords, destinations);
      var i := |batch|;
      while i > 0
        invariant 0 <= i <= |batch|
        invariant cursor == old(cursor)[chat := Advance(old(cursor)[chat], batch[i..])]
        invariant sent == old(sent) + BatchSends(handle, batch[i..])
      {
        i := i - 1;
        ProcessMessage(keywords, destinations, batch[i]);
        cursor := cursor[chat := Max(cursor[chat], batch[i].id)];
        assert batch[i..][1..] == batch[i + 1..];
      }
      assert batch[0..] == batch;
    }

    /** Handles one message: forwards its cleaned text to every destination when
        the keyword test accepts it. */
    method ProcessMessage(keywords: seq<string>, destinations: seq<int>, m: Msg)
      modifies this`sent
      ensures sent == old(sent) + Handling(sub, patterns, keywords, destinations)(m)
    {
      if keywords != [] && HasText(m.text) {
        if exists k :: k in keywords && Contains(ToLower(m.text.value), k) {
          var cleaned := CleanMessage(m.text.value);
          SendToAll(destinations, cleaned);
        }
      } else if HasText(m.text) {
        var cleaned := CleanMessage(m.text.value);
        SendToAll(destinations, cleaned);
      }
    }

    /** One pass over all source chats, in list order. */
    method Pass(keywords: seq<string>, destinations: seq<int>, sources: seq<int>, fetch: Fetch)
      requires forall c :: c in sources ==> c in cursor
      modifies this`cursor, this`sent
      ensures RelayState(cursor, sent)
           == RunPass(sub, patterns, keywords, destinations, fetch, RelayState(old(cursor), old(sent)), sources)
    {
      ghost var start := RelayState(cursor, sent);
      for i := 0 to |sources|
        invariant cursor.Keys == start.cursor.Keys
        invariant RelayState(cursor, sent)
               == RunPass(sub, patterns, keywords, destinations, fetch, start, sources[..i])
      {
        var chat := sources[i];
        assert sources[..i + 1][..i] == sources[..i];
        var batch := fetch(chat, cursor[chat]);
        ProcessBatch(keywords, destinations, chat, batch);
      }
      assert sources[..|sources|] == sources;
    }
  }

  /** The fan-out to the first `n` destinations extends the fan-out to the first
      `n - 1` by one send to destination `n - 1`. */
  lemma {:induction false} FanoutPrefix(destinations: seq<int>, n: nat, text: string)
    requires 0 < n <= |destinations|
    ensures FanoutSends(destinations[..n], text)
         == FanoutSends(destinations[..n - 1], text) + [Send(destinations[n - 1], text)]
  {
    var r := FanoutSends(destinations[..n], text);
    var q := FanoutSends(destinations[..n - 1], text) + [Send(destinations[n - 1], text)];
    assert |r| == |q|;
    forall i | 0 <= i < |r| ensures r[i] == q[i] {
      FanoutSendsAt(destinations[..n], text, i);
      if i < n - 1 {
        FanoutSendsAt(destinations[..n - 1], text, i);
      }
    }
  }
}
