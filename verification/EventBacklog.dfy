/** The backlog of unwritten event batches, and the log against which its order and losses are stated. */
module EventBacklog {
  import opened Common
  import opened SensorTypes

  datatype Batch = Batch(events: seq<Event>, wakeups: nat)

  function Total(backlog: seq<Batch>): nat {
    if backlog == [] then 0 else |backlog[0].events| + Total(backlog[1..])
  }

  function Flatten(backlog: seq<Batch>): seq<Event> {
    if backlog == [] then [] else backlog[0].events + Flatten(backlog[1..])
  }

  predicate NoEmptyBatch(backlog: seq<Batch>) {
    forall b :: b in backlog ==> b.events != []
  }

  lemma {:induction false} Append(backlog: seq<Batch>, b: Batch)
    ensures Total(backlog + [b]) == Total(backlog) + |b.events|
    ensures Flatten(backlog + [b]) == Flatten(backlog) + b.events
  {
    if backlog == [] {
      assert [b][1..] == [];
    } else {
      assert (backlog + [b])[1..] == backlog[1..] + [b];
      Append(backlog[1..], b);
      var front, rest := backlog[0].events, Flatten(backlog[1..]);
      assert front + (rest + b.events) == (front + rest) + b.events;
    }
  }

  lemma {:induction false} FlattenLength(backlog: seq<Batch>)
    ensures |Flatten(backlog)| == Total(backlog)
  {
    if backlog != [] {
      FlattenLength(backlog[1..]);
    }
  }

  /** What one writer pass does to the front batch once its first `quantum` events, or all of them, are dealt with. */
  function PopFront(backlog: seq<Batch>, quantum: nat): seq<Batch>
    requires backlog != []
  {
    var front := backlog[0];
    if |front.events| > quantum then backlog[0 := front.(events := front.events[quantum..])]
    else backlog[1..]
  }

  lemma PopFrontEffect(backlog: seq<Batch>, quantum: nat)
    requires backlog != []
    ensures var n := Min(|backlog[0].events|, quantum);
            var rest := PopFront(backlog, quantum);
            && n <= |Flatten(backlog)|
            && Flatten(rest) == Flatten(backlog)[n..]
            && Total(rest) == Total(backlog) - n
            && (NoEmptyBatch(backlog) ==> NoEmptyBatch(rest))
  {
    PopFrontFlattens(backlog, quantum);
    if NoEmptyBatch(backlog) {
      PopFrontLeavesNoneEmpty(backlog, quantum);
    }
  }

  lemma PopFrontFlattens(backlog: seq<Batch>, quantum: nat)
    requires backlog != []
    ensures var n := Min(|backlog[0].events|, quantum);
            var rest := PopFront(backlog, quantum);
            && n <= |Flatten(backlog)| && Flatten(rest) == Flatten(backlog)[n..] && Total(rest) == Total(backlog) - n
  {
    var front := backlog[0];
    var rest := PopFront(backlog, quantum);
    if |front.events| > quantum {
      assert rest[1..] == backlog[1..] && rest[0].events == front.events[quantum..];
      assert Flatten(rest) == front.events[quantum..] + Flatten(backlog[1..]);
    } else {
      assert Flatten(backlog)[|front.events|..] == Flatten(backlog[1..]);
    }
  }

  lemma PopFrontLeavesNoneEmpty(backlog: seq<Batch>, quantum: nat)
    requires backlog != [] && NoEmptyBatch(backlog)
    ensures NoEmptyBatch(PopFront(backlog, quantum))
  {
    var rest := PopFront(backlog, quantum);
    forall b | b in rest ensures b.events != [] {
      if |backlog[0].events| > quantum && b != rest[0] {
        assert b in backlog[1..];
      }
    }
  }

  lemma {:induction false} FlattenPrefix(before: seq<Batch>, after: seq<Batch>)
    requires before <= after
    ensures Flatten(before) <= Flatten(after)
  {
    if before != [] {
      FlattenPrefix(before[1..], after[1..]);
      assert after[0] == before[0];
    }
  }

  /** A pass over a backlog that has grown at its end meanwhile takes the first events of what was there before. */
  lemma PassTakesFirst(before: seq<Batch>, after: seq<Batch>, quantum: nat)
    requires before != [] && before <= after
    ensures var n := Min(|before[0].events|, quantum);
            && n <= |Flatten(before)| && Flatten(before)[..n] == before[0].events[..n]
            && Flatten(before)[n..] <= Flatten(PopFront(after, quantum))
  {
    FlattenPrefix(before, after);
    PopFrontEffect(after, quantum);
    assert after[0] == before[0];
  }

  // ---------------------------------------------------------------- drain passes

  function CeilDiv(len: nat, quantum: nat): nat
    requires quantum > 0
  {
    (len + quantum - 1) / quantum
  }

  function Passes(backlog: seq<Batch>, quantum: nat): nat
    requires quantum > 0
  {
    if backlog == [] then 0 else CeilDiv(|backlog[0].events|, quantum) + Passes(backlog[1..], quantum)
  }

  lemma OnePassLess(backlog: seq<Batch>, quantum: nat)
    requires quantum > 0 && backlog != [] && backlog[0].events != []
    ensures Passes(PopFront(backlog, quantum), quantum) == Passes(backlog, quantum) - 1
  {
    var len := |backlog[0].events|;
    if len > quantum {
      var shorter := PopFront(backlog, quantum);
      assert shorter[1..] == backlog[1..];
      DivisionStep(len + quantum - 1, quantum);
    } else {
      CeilOfShort(len, quantum);
    }
  }

  lemma DivisionStep(x: nat, q: nat)
    requires 0 < q <= x
    ensures (x - q) / q == x / q - 1
  {
    var k, m := (x - q) / q, x / q;
    assert q * (k + 1) == q * k + q;
    if m < k + 1 {
      MulMonotone(q, m + 1, k + 1);
    } else if m > k + 1 {
      MulMonotone(q, k + 2, m);
    }
  }

  lemma MulMonotone(q: nat, a: nat, b: nat)
    requires a <= b
    ensures q * a <= q * b
  {
  }

  lemma CeilOfShort(len: nat, quantum: nat)
    requires 0 < len <= quantum
    ensures CeilDiv(len, quantum) == 1
  {
    DivisionStep(len + quantum - 1, quantum);
    assert (len - 1) / quantum == 0;
  }

  lemma NoPassesIffEmpty(backlog: seq<Batch>, quantum: nat)
    requires quantum > 0 && NoEmptyBatch(backlog)
    ensures Passes(backlog, quantum) == 0 <==> backlog == []
  {
    if backlog != [] {
      OnePassLess(backlog, quantum);
    }
  }

  // ---------------------------------------------------------------- the log of posted events and their fates

  /** What became of one posted event. LostOverflow: the post found the backlog too full. LostWrite: a
      blocking write of the chunk holding it failed. */
  datatype Fate = Written | Pending | LostOverflow | LostWrite

  /** One posted event, the number of its post, and its fate so far. */
  datatype Entry = Entry(event: Event, post: nat, fate: Fate)

  function Events(log: seq<Entry>): (es: seq<Event>)
    ensures |es| == |log|
  {
    if log == [] then [] else [log[0].event] + Events(log[1..])
  }

  function Select(log: seq<Entry>, f: Fate): seq<Event> {
    if log == [] then []
    else if log[0].fate == f then [log[0].event] + Select(log[1..], f)
    else Select(log[1..], f)
  }

  /** The events that were not lost, in the order they were posted. */
  function Kept(log: seq<Entry>): seq<Event> {
    if log == [] then []
    else if log[0].fate == Written || log[0].fate == Pending then [log[0].event] + Kept(log[1..])
    else Kept(log[1..])
  }

  /** Entries for `events`, all posted as number `post` and all of fate `f`. */
  function Entries(events: seq<Event>, post: nat, f: Fate): (log: seq<Entry>)
    ensures |log| == |events|
    ensures forall i :: 0 <= i < |log| ==> log[i] == Entry(events[i], post, f)
  {
    if events == [] then [] else [Entry(events[0], post, f)] + Entries(events[1..], post, f)
  }

  /** Settles the first `n` pending entries with fate `f`. */
  function Settle(log: seq<Entry>, n: nat, f: Fate): seq<Entry> {
    if log == [] || n == 0 then log
    else if log[0].fate == Pending then [log[0].(fate := f)] + Settle(log[1..], n - 1, f)
    else [log[0]] + Settle(log[1..], n, f)
  }

  /** The fates the pending-writes thread gives. */
  predicate Settled(f: Fate) {
    f == Written || f == LostWrite
  }

  predicate NoneSettled(log: seq<Entry>) {
    forall e :: e in log ==> !Settled(e.fate)
  }

  /** No event was settled ahead of one that is still pending. */
  predicate Ordered(log: seq<Entry>) {
    log == [] || ((log[0].fate == Pending ==> NoneSettled(log[1..])) && Ordered(log[1..]))
  }

  /** Overflow takes a suffix of a post, and what came before that suffix was written at once. */
  predicate OverflowIsSuffix(log: seq<Entry>) {
    forall i, j :: 0 <= i < j < |log| ==> SuffixAt(log, i, j)
  }

  predicate SuffixAt(log: seq<Entry>, i: nat, j: nat)
    requires i < j < |log|
  {
    log[i].post == log[j].post ==>
      && (log[i].fate == LostOverflow ==> log[j].fate == LostOverflow)
      && (log[j].fate == LostOverflow ==> log[i].fate == Written || log[i].fate == LostOverflow)
  }

  predicate PostsBelow(log: seq<Entry>, posts: nat) {
    forall i :: 0 <= i < |log| ==> log[i].post < posts
  }

  lemma {:induction false} SelectConcat(a: seq<Entry>, b: seq<Entry>, f: Fate)
    ensures Select(a + b, f) == Select(a, f) + Select(b, f)
    ensures Events(a + b) == Events(a) + Events(b)
  {
    if a == [] {
      assert a + b == b;
    } else {
      assert (a + b)[1..] == a[1..] + b;
      SelectConcat(a[1..], b, f);
    }
  }

  lemma {:induction false} SelectEntries(events: seq<Event>, post: nat, f: Fate, g: Fate)
    ensures Select(Entries(events, post, f), g) == if f == g then events else []
    ensures Events(Entries(events, post, f)) == events
  {
    if events != [] {
      SelectEntries(events[1..], post, f, g);
      assert Entries(events, post, f)[1..] == Entries(events[1..], post, f);
      assert events == [events[0]] + events[1..];
    }
  }

  lemma {:induction false} NoneSettledSelects(log: seq<Entry>, f: Fate)
    requires NoneSettled(log) && Settled(f)
    ensures Select(log, f) == []
  {
    if log != [] {
      NoneSettledSelects(log[1..], f);
    }
  }

  lemma {:induction false} OrderedConcat(a: seq<Entry>, b: seq<Entry>)
    requires Ordered(a) && Ordered(b)
    requires NoneSettled(b) || Select(a, Pending) == []
    ensures Ordered(a + b)
  {
    if a == [] {
      assert a + b == b;
    } else {
      assert (a + b)[1..] == a[1..] + b;
      OrderedConcat(a[1..], b);
    }
  }

  lemma {:induction false} OrderedUniform(events: seq<Event>, post: nat, f: Fate)
    ensures Ordered(Entries(events, post, f))
  {
    if events != [] {
      assert Entries(events, post, f)[1..] == Entries(events[1..], post, f);
      OrderedUniform(events[1..], post, f);
    }
  }

  /** Settling changes nothing but the fates of pending entries. */
  lemma {:induction false} SettleKeeps(log: seq<Entry>, n: nat, f: Fate)
    ensures var r := Settle(log, n, f);
            && |r| == |log|
            && Events(r) == Events(log)
            && forall i :: 0 <= i < |log| ==>
                 && r[i].post == log[i].post
                 && (r[i].fate == log[i].fate || (log[i].fate == Pending && r[i].fate == f))
  {
    if log != [] && n > 0 {
      SettleKeeps(log[1..], if log[0].fate == Pending then n - 1 else n, f);
    }
  }

  /** Settling takes the first `n` events off the pending ones and touches no other fate. */
  lemma {:induction false} SettlePending(log: seq<Entry>, n: nat, f: Fate, g: Fate)
    requires f != Pending && n <= |Select(log, Pending)| && g != f && g != Pending
    ensures Select(Settle(log, n, f), Pending) == Select(log, Pending)[n..]
    ensures Select(Settle(log, n, f), g) == Select(log, g)
  {
    if log != [] && n > 0 {
      SettlePending(log[1..], if log[0].fate == Pending then n - 1 else n, f, g);
    }
  }

  /** Events settled join the end of what was settled so before: the order of posting is kept. */
  lemma {:induction false} SettleOrdered(log: seq<Entry>, n: nat, f: Fate)
    requires Ordered(log) && Settled(f) && n <= |Select(log, Pending)|
    ensures Select(Settle(log, n, f), f) == Select(log, f) + Select(log, Pending)[..n]
    ensures Ordered(Settle(log, n, f))
  {
    if log != [] && n > 0 {
      var m := if log[0].fate == Pending then n - 1 else n;
      SettleOrdered(log[1..], m, f);
      assert Settle(log, n, f)[1..] == Settle(log[1..], m, f);
      if log[0].fate == Pending {
        NoneSettledSelects(log[1..], f);
      }
    }
  }

  /** Settling leaves every overflow loss a suffix of its post. */
  lemma SettleOverflow(log: seq<Entry>, n: nat, f: Fate, posts: nat)
    requires OverflowIsSuffix(log) && PostsBelow(log, posts) && Settled(f)
    ensures OverflowIsSuffix(Settle(log, n, f)) && PostsBelow(Settle(log, n, f), posts)
  {
    SettleKeeps(log, n, f);
    var r := Settle(log, n, f);
    forall i, j | 0 <= i < j < |r| ensures SuffixAt(r, i, j) {
      assert SuffixAt(log, i, j);
    }
  }

  // ---------------------------------------------------------------- the end of a post

  /** The log after a post numbered `post`: its first `k` events written at once, the rest of fate `f`. */
  function AfterPost(log: seq<Entry>, events: seq<Event>, k: nat, post: nat, f: Fate): seq<Entry>
    requires k <= |events|
  {
    log + Entries(events[..k], post, Written) + Entries(events[k..], post, f)
  }

  lemma SpillSelects(log: seq<Entry>, events: seq<Event>, k: nat, post: nat, f: Fate, g: Fate)
    requires k <= |events|
    ensures Select(AfterPost(log, events, k, post, f), g) ==
            Select(log, g) + (if g == Written then events[..k] else []) + (if f == g then events[k..] else [])
  {
    var a, b := Entries(events[..k], post, Written), Entries(events[k..], post, f);
    assert Select(log + a + b, g) == Select(log, g) + Select(a, g) + Select(b, g) by {
      SelectConcat(log, a, g);
      SelectConcat(log + a, b, g);
    }
    SelectEntries(events[..k], post, Written, g);
    SelectEntries(events[k..], post, f, g);
  }

  lemma SpillEvents(log: seq<Entry>, events: seq<Event>, k: nat, post: nat, f: Fate)
    requires k <= |events|
    ensures Events(AfterPost(log, events, k, post, f)) == Events(log) + events
  {
    var a, b := Entries(events[..k], post, Written), Entries(events[k..], post, f);
    assert Events(log + a + b) == (Events(log) + events[..k]) + events[k..] by {
      SelectConcat(log, a, f);
      SelectConcat(log + a, b, f);
      SelectEntries(events[..k], post, Written, f);
      SelectEntries(events[k..], post, f, f);
    }
    Regroup(Events(log), events, k);
  }

  lemma Regroup(before: seq<Event>, events: seq<Event>, k: nat)
    requires k <= |events|
    ensures (before + events[..k]) + events[k..] == before + events
  {
  }

  lemma SpillOrdered(log: seq<Entry>, events: seq<Event>, k: nat, post: nat, f: Fate)
    requires k <= |events| && (f == Pending || f == LostOverflow)
    requires Ordered(log) && (k > 0 ==> Select(log, Pending) == [])
    ensures Ordered(AfterPost(log, events, k, post, f))
  {
    var a, b := Entries(events[..k], post, Written), Entries(events[k..], post, f);
    OrderedUniform(events[..k], post, Written);
    OrderedUniform(events[k..], post, f);
    if k > 0 {
      OrderedConcat(log, a);
    } else {
      assert log + a == log;
    }
    OrderedConcat(log + a, b);
  }

  lemma SpillOverflow(log: seq<Entry>, events: seq<Event>, k: nat, post: nat, f: Fate)
    requires k <= |events| && (f == Pending || f == LostOverflow)
    requires OverflowIsSuffix(log) && PostsBelow(log, post)
    ensures var r := AfterPost(log, events, k, post, f); OverflowIsSuffix(r) && PostsBelow(r, post + 1)
  {
    var r := AfterPost(log, events, k, post, f);
    forall i, j | 0 <= i < j < |r| ensures SuffixAt(r, i, j) {
      if j < |log| {
        assert r[i] == log[i] && r[j] == log[j] && SuffixAt(log, i, j);
      } else {
        assert r[j].post == post && r[j].fate == if j < |log| + k then Written else f;
        assert i < |log| ==> r[i] == log[i];
      }
    }
  }

  /** In an ordered log the events kept are the written ones followed by the pending ones. */
  lemma {:induction false} KeptIsWrittenThenPending(log: seq<Entry>)
    requires Ordered(log)
    ensures Kept(log) == Select(log, Written) + Select(log, Pending)
  {
    if log != [] {
      KeptIsWrittenThenPending(log[1..]);
      if log[0].fate == Pending {
        NoneSettledSelects(log[1..], Written);
      }
    }
  }

  lemma {:induction false} EveryEntryHasOneFate(log: seq<Entry>)
    ensures |log| == |Select(log, Written)| + |Select(log, Pending)| + |Select(log, LostOverflow)| + |Select(log, LostWrite)|
  {
    if log != [] {
      EveryEntryHasOneFate(log[1..]);
    }
  }

  // ---------------------------------------------------------------- subsequences

  predicate Subsequence(a: seq<Event>, b: seq<Event>) {
    a == [] || (b != [] && ((a[0] == b[0] && Subsequence(a[1..], b[1..])) || Subsequence(a, b[1..])))
  }

  lemma {:induction false} KeptIsSubsequence(log: seq<Entry>)
    ensures Subsequence(Kept(log), Events(log))
  {
    if log != [] {
      KeptIsSubsequence(log[1..]);
      assert Events(log)[1..] == Events(log[1..]);
      if log[0].fate == Written || log[0].fate == Pending {
        assert Kept(log)[1..] == Kept(log[1..]);
      }
    }
  }

  lemma {:induction false} SubsequenceExtends(a: seq<Event>, b: seq<Event>, c: seq<Event>)
    requires Subsequence(a, b)
    ensures Subsequence(a, b + c)
  {
    if a != [] {
      assert (b + c)[1..] == b[1..] + c;
      if a[0] == b[0] && Subsequence(a[1..], b[1..]) {
        SubsequenceExtends(a[1..], b[1..], c);
      } else {
        SubsequenceExtends(a, b[1..], c);
      }
    }
  }
}
