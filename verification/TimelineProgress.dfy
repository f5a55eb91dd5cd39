/**
 Following the timeline gets somewhere (src/ui.cpp): every page returns as many of the unread events as it was asked
 for, enough pages return them all, and each event is the record of its span.
 */
module TimelineProgress {
  import opened Common
  import opened Timeline

  // ---------------------------------------------------------------- progress

  /** The positions ahead of the cursor whose events are still there. */
  function Unread(w: Watch, capacity: nat): set<nat> {
    set p | Start(w.position) <= p <= |w.log| && !Gone(w, capacity, p)
  }

  lemma {:induction false} IntervalSize(s: set<nat>, low: nat, high: nat)
    requires low <= high && forall p: nat :: p in s <==> low <= p < high
    ensures |s| == high - low
    decreases high - low
  {
    if low == high {
      assert forall p: nat :: p !in s;
      assert s == {};
    } else {
      IntervalSize(s - {low}, low + 1, high);
    }
  }

  /** The first position a poll can return. */
  function Available(w: Watch, capacity: nat): nat {
    var floor := Floor(|w.log|, w.cleared, capacity);
    if Start(w.position) < floor then floor else Start(w.position)
  }

  lemma UnreadSize(w: Watch, capacity: nat)
    requires Sane(w)
    ensures |Unread(w, capacity)| == |w.log| + 1 - Available(w, capacity)
  {
    IntervalSize(Unread(w, capacity), Available(w, capacity), |w.log| + 1);
  }

  function Least(a: nat, b: nat): nat {
    if a < b then a else b
  }

  /** A poll returns as many of the unread events as it was asked for, and leaves the others unread. */
  lemma PollProgress(w: Watch, limit: nat, capacity: nat)
    requires Sane(w) && limit > 0 && |w.log| < MAX_U64
    ensures var v, n := After(w, Poll(limit), capacity), Least(limit, |Unread(w, capacity)|);
            && |v.seen| == |w.seen| + n && |Unread(v, capacity)| == |Unread(w, capacity)| - n
            && (n < limit ==> v.position == |w.log| + 1)
            && (v.position == |w.log| + 1 <==> Unread(v, capacity) == {})
  {
    var v := After(w, Poll(limit), capacity);
    UnreadSize(w, capacity);
    UnreadSize(v, capacity);
    assert v.log == w.log && v.cleared == w.cleared && v.position >= Available(w, capacity);
  }

  function Polls(n: nat, limit: nat): seq<Op> {
    seq(n, _ => Poll(limit))
  }

  lemma OnePage(capacity: nat, ops: seq<Op>, limit: nat)
    requires limit > 0 && |Watched(capacity, ops).log| < MAX_U64
    ensures var w, v := Watched(capacity, ops), Watched(capacity, ops + Polls(1, limit));
            && v.log == w.log && |v.seen| == |w.seen| + Least(limit, |Unread(w, capacity)|)
            && |Unread(v, capacity)| == |Unread(w, capacity)| - Least(limit, |Unread(w, capacity)|)
            && (|Unread(w, capacity)| <= limit ==> v.position == |w.log| + 1)
  {
    assert (ops + Polls(1, limit))[..|ops|] == ops;
    PollProgress(Watched(capacity, ops), limit, capacity);
  }

  lemma OneMore(n: nat, limit: nat)
    requires n > 0
    ensures n * limit == (n - 1) * limit + limit && (n - 1) * limit >= 0 && (n == 1 ==> n * limit == limit)
  {
  }

  lemma PagesLeft(unread: nat, n: nat, limit: nat)
    requires n > 0 && n * limit >= unread
    ensures if n == 1 then unread <= limit else (n - 1) * limit >= unread - Least(limit, unread)
  {
    OneMore(n, limit);
  }

  lemma PollsNext(ops: seq<Op>, n: nat, limit: nat)
    requires n > 0
    ensures ops + Polls(n, limit) == ops + Polls(1, limit) + Polls(n - 1, limit)
  {
  }

  /** However small the pages, enough of them catch up with the log. */
  lemma {:induction false} PagesCatchUp(capacity: nat, ops: seq<Op>, n: nat, limit: nat)
    requires limit > 0 && n > 0 && |Watched(capacity, ops).log| < MAX_U64
    requires n * limit >= |Unread(Watched(capacity, ops), capacity)|
    ensures var w, v := Watched(capacity, ops), Watched(capacity, ops + Polls(n, limit));
            && v.position == |w.log| + 1 && |v.seen| == |w.seen| + |Unread(w, capacity)|
    decreases n
  {
    OnePage(capacity, ops, limit);
    PagesLeft(|Unread(Watched(capacity, ops), capacity)|, n, limit);
    if n > 1 {
      PollsNext(ops, n, limit);
      PagesCatchUp(capacity, ops + Polls(1, limit), n - 1, limit);
    }
  }

  // ---------------------------------------------------------------- what is recorded

  /** The completions of a script, in order. */
  function Completions(ops: seq<Op>): seq<Op> {
    if ops == [] then []
    else
      var last := ops[|ops| - 1];
      Completions(ops[..|ops| - 1]) + if last.Complete? then [last] else []
  }

  /** The event of a completed span: it lasts until its end, or not at all when the clock ran backwards. */
  predicate Records(e: Event, op: Op) {
    && op.Complete? && e.failed == op.failed
    && e.sequence == op.event.sequence && e.span == op.event.span && e.start == op.event.start
    && e.duration >= 0
    && (op.end >= e.start ==> e.start + e.duration == op.end)
    && (op.end < e.start ==> e.duration == 0)
  }

  /** The log holds one event for each completion, with its duration and its failure. */
  lemma {:induction false} LogRecords(capacity: nat, ops: seq<Op>)
    ensures var log, all := Watched(capacity, ops).log, Completions(ops);
            |log| == |all| && forall k | 0 <= k < |log| :: Records(log[k], all[k])
  {
    if ops != [] { LogRecords(capacity, ops[..|ops| - 1]); }
  }
}
