/**
 The timeline recorder (src/ui.cpp): a ring of completed events that overwrites the oldest, read
 incrementally through cursors.  It refines an append-only log with a retention floor.
 */
module Timeline {
  import opened Common

  datatype Event = Event(sequence: nat, span: nat, start: int, duration: int, failed: bool)

  datatype ReadError = InvalidLimit | Exhausted | Ahead | ForeignCursor
  datatype Read = Completed(events: seq<Event>, next: nat, missed: nat) | Failed(error: ReadError)

  /** A cursor remembers its recorder; position 0 has not been bound to any. */
  datatype Cursor = Cursor(token: nat, position: nat)

  datatype Batch = Batch(events: seq<Event>, cursor: Cursor, missed: nat) | Rejected(error: ReadError)

  /** The event as it is stored when its span ends. */
  function Finished(e: Event, end: int, failed: bool): Event {
    e.(failed := failed, duration := if end >= e.start then end - e.start else 0)
  }

  /** A read of the log: the retained events from the cursor on, at most `limit` of them. */
  function LogRead(log: seq<Event>, floor: nat, limit: nat, requested: nat): (r: Read)
    requires 1 <= floor <= |log| + 1
    ensures limit > 0 && requested <= |log| + 1 ==>
              r.Completed? && |r.events| + r.missed == r.next - (if requested == 0 then 1 else requested)
  {
    if limit == 0 then Failed(InvalidLimit)
    else
      var from := if requested == 0 then 1 else requested;
      if from > |log| + 1 then Failed(Ahead)
      else
        var available := if from < floor then floor else from;
        var n := if limit < |log| + 1 - available then limit else |log| + 1 - available;
        Completed(log[available - 1..available - 1 + n], available + n, available - from)
  }

  /** The oldest retained position: nothing cleared, and no more than the capacity. */
  function Floor(size: nat, cleared: nat, capacity: nat): nat {
    if size + 1 > cleared + capacity then size + 1 - capacity else cleared
  }

  /** Where the i-th retained event lies in a ring of n slots. */
  function Slot(first: nat, i: nat, n: nat): nat {
    if first + i < n then first + i else first + i - n
  }

  /** The index expression of the ring, (first + i) % n. */
  method SlotAt(first: nat, i: nat, n: nat) returns (slot: nat)
    requires first < n && i <= n
    ensures slot == Slot(first, i, n) < n
  {
    slot := (first + i) % n;
    Modulo(first + i, n, if first + i < n then 0 else 1);
  }

  lemma Modulo(x: nat, n: nat, q: nat)
    requires n > 0 && q <= 1 && q * n <= x < (q + 1) * n
    ensures x % n == x - q * n
  {
    assert x == n * q + (x - q * n);
  }

  /** Advancing the ring by one moves every slot to its predecessor and frees the first for the last. */
  lemma Rotate(first: nat, n: nat, i: nat)
    requires first < n && i < n
    ensures Slot(Slot(first, 1, n), i, n) == (if i == n - 1 then first else Slot(first, i + 1, n))
  {
  }

  class Recorder {
    const token: nat
    const events: array<Event>
    const positions: array<nat>
    var first: nat
    var count: nat
    var dropped: nat
    var next: nat
    var floor: nat
    var exhausted: bool
    ghost var log: seq<Event>           // every completed event; position p is log[p - 1]
    ghost var cleared: nat              // the first position after the last clear

    ghost predicate Valid()
      reads this, events, positions
    {
      && events.Length == positions.Length <= MAX_U64 && first < events.Length && count <= events.Length
      && count <= |log|
      && (forall i | 0 <= i < count :: events[Slot(first, i, events.Length)] == log[|log| - count + i])
      && 1 <= cleared <= |log| + 1
      && (exhausted ==> next == MAX_U64 <= |log|)
      && (!exhausted ==>
            && floor == Floor(|log|, cleared, events.Length) && next == |log| + 1 == floor + count <= MAX_U64
            && forall i | 0 <= i < count :: positions[Slot(first, i, events.Length)] == floor + i)
    }

    constructor (capacity: nat, id: nat)
      requires 0 < capacity <= MAX_U64
      ensures Valid() && fresh(events) && fresh(positions) && events.Length == capacity && token == id
      ensures log == [] && count == 0 && next == 1 && floor == 1 && cleared == 1 && !exhausted && dropped == 0
    {
      token := id;
      events := new Event[capacity](_ => Event(0, 0, 0, 0, false));
      positions := new nat[capacity](_ => 0);
      first, count, dropped, next, floor, exhausted := 0, 0, 0, 1, 1, false;
      log, cleared := [], 1;
    }

    /** A completed span is stored, over the oldest event when the ring is full. */
    method Finish(e: Event, end: int, failed: bool)
      requires Valid()
      modifies this, events, positions
      ensures Valid() && log == old(log) + [Finished(e, end, failed)] && cleared == old(cleared)
      ensures count == (if old(count) < events.Length then old(count) + 1 else old(count))
      ensures dropped == (if old(count) < events.Length then old(dropped) else old(dropped) + 1)
      ensures exhausted == (old(exhausted) || old(next) == MAX_U64)
    {
      if count < events.Length {
        Append(Finished(e, end, failed));
      } else {
        Overwrite(Finished(e, end, failed));
      }
    }

    method Append(event: Event)
      requires Valid() && count < events.Length
      modifies this`next, this`exhausted, this`count, this`log, events, positions
      ensures Valid() && log == old(log) + [event] && count == old(count) + 1
      ensures exhausted == (old(exhausted) || old(next) == MAX_U64)
    {
      Insert(event);
      if next == MAX_U64 { exhausted := true; } else { next := next + 1; }
      count := count + 1;
      log := log + [event];
    }

    /** Write the first free slot. */
    method Insert(event: Event)
      requires Valid() && count < events.Length
      modifies events, positions
      ensures forall i | 0 <= i <= count ::
                && events[Slot(first, i, events.Length)] == (if i < count then log[|log| - count + i] else event)
                && (!exhausted ==> positions[Slot(first, i, events.Length)] == if i < count then floor + i else next)
    {
      var insertion := SlotAt(first, count, events.Length);
      events[insertion], positions[insertion] := event, next;
    }

    method Overwrite(event: Event)
      requires Valid() && count == events.Length
      modifies this`first, this`next, this`exhausted, this`dropped, this`floor, this`log, events, positions
      ensures Valid() && log == old(log) + [event] && dropped == old(dropped) + 1
      ensures exhausted == (old(exhausted) || old(next) == MAX_U64)
    {
      Push(event);
      floor := next - count + 1;
      if next == MAX_U64 { exhausted := true; } else { next := next + 1; }
      dropped, log := dropped + 1, log + [event];
    }

    /** Write over the oldest slot and advance the ring. */
    method Push(event: Event)
      requires Valid() && count == events.Length
      modifies this`first, events, positions
      ensures first < events.Length
      ensures forall i | 0 <= i < count ::
                && events[Slot(first, i, count)] == (if i < count - 1 then log[|log| - count + i + 1] else event)
                && (!exhausted ==> positions[Slot(first, i, count)] == if i < count - 1 then floor + i + 1 else next)
    {
      events[first], positions[first] := event, next;
      first := SlotAt(first, 1, events.Length);
      forall i | 0 <= i < count
        ensures events[Slot(first, i, count)] == (if i < count - 1 then log[|log| - count + i + 1] else event)
        ensures !exhausted ==> positions[Slot(first, i, count)] == if i < count - 1 then floor + i + 1 else next
      {
        Rotate(old(first), count, i);
        if i < count - 1 {
          assert old(events[Slot(first, i + 1, count)] == log[|log| - count + (i + 1)]);
          assert !exhausted ==> old(positions[Slot(first, i + 1, count)] == floor + (i + 1));
        }
      }
    }

    /** Copy out the retained events from a position on. */
    method ReadCompleted(limit: nat, requested: nat) returns (r: Read)
      requires Valid()
      ensures r == if limit == 0 then Failed(InvalidLimit) else if exhausted then Failed(Exhausted)
                   else LogRead(log, floor, limit, requested)
    {
      if limit == 0 { return Failed(InvalidLimit); }
      if exhausted { return Failed(Exhausted); }
      var from := if requested == 0 then 1 else requested;
      if from > next { return Failed(Ahead); }
      var available := if from < floor then floor else from;
      var collected, reached := Collect(limit, available);
      r := Completed(collected, reached, available - from);
    }

    method Collect(limit: nat, available: nat) returns (result: seq<Event>, reached: nat)
      requires Valid() && !exhausted && limit > 0 && floor <= available <= next
      ensures reached == available + (if limit < next - available then limit else next - available)
      ensures result == log[available - 1..reached - 1]
    {
      result, reached := [], available;
      var i := 0;
      while i < count && |result| < limit
        invariant 0 <= i <= count && available <= reached <= next && |result| <= limit
        invariant reached == if floor + i <= available then available else floor + i
        invariant result == log[available - 1..reached - 1]
      {
        var slot := SlotAt(first, i, events.Length);
        if positions[slot] >= available {
          assert log[available - 1..reached] == log[available - 1..reached - 1] + [log[reached - 1]];
          result := result + [events[slot]];
          reached := positions[slot] + 1;
        }
        i := i + 1;
      }
    }

    /** The public read: a bound cursor must belong to this recorder. */
    method Follow(limit: nat, cursor: Cursor) returns (b: Batch)
      requires Valid()
      ensures cursor.position != 0 && cursor.token != token ==> b == Rejected(ForeignCursor)
      ensures cursor.position == 0 || cursor.token == token ==>
                b == if limit == 0 then Rejected(InvalidLimit)
                     else if exhausted then Rejected(Exhausted)
                     else match LogRead(log, floor, limit, cursor.position)
                       case Completed(events, next, missed) => Batch(events, Cursor(token, next), missed)
                       case Failed(error) => Rejected(error)
    {
      if cursor.position != 0 && cursor.token != token { return Rejected(ForeignCursor); }
      var r := ReadCompleted(limit, cursor.position);
      match r
      case Completed(events, next, missed) => b := Batch(events, Cursor(token, next), missed);
      case Failed(error) => b := Rejected(error);
    }

    method Clear()
      requires Valid()
      modifies this`first, this`count, this`dropped, this`floor, this`cleared
      ensures Valid() && count == 0 && dropped == 0 && floor == next && cleared == |log| + 1
    {
      first, count, dropped := 0, 0, 0;
      floor, cleared := next, |log| + 1;
    }
  }

  // ---------------------------------------------------------------- following a recorder

  datatype Op = Complete(event: Event, end: int, failed: bool) | Wipe | Poll(limit: nat)

  /** A follower of the log: what was completed and cleared, and what the follower has seen and missed. */
  datatype Watch = Watch(log: seq<Event>, cleared: nat, position: nat, seen: seq<Event>, missed: nat)

  predicate Sane(w: Watch) {
    1 <= w.cleared <= |w.log| + 1 && w.position <= |w.log| + 1
  }

  /** One operation on the log; a poll is one read of it, refused once the positions are spent. */
  function After(w: Watch, op: Op, capacity: nat): (v: Watch)
    requires Sane(w)
    ensures Sane(v)
  {
    match op
    case Complete(event, end, failed) => w.(log := w.log + [Finished(event, end, failed)])
    case Wipe => w.(cleared := |w.log| + 1)
    case Poll(limit) =>
      if limit == 0 || |w.log| >= MAX_U64 then w
      else match LogRead(w.log, Floor(|w.log|, w.cleared, capacity), limit, w.position)
        case Completed(events, next, missed) => w.(position := next, seen := w.seen + events,
                                                   missed := w.missed + missed)
        case Failed(_) => w
  }

  /** The whole script, on the append-only log. */
  function Watched(capacity: nat, ops: seq<Op>): (w: Watch)
    ensures Sane(w)
  {
    if ops == [] then Watch([], 1, 0, [], 0)
    else After(Watched(capacity, ops[..|ops| - 1]), ops[|ops| - 1], capacity)
  }

  /** Events read at increasing positions of the log, all before `position`. */
  ghost predicate Located(seen: seq<Event>, at: seq<nat>, log: seq<Event>, position: nat) {
    && |at| == |seen| && position <= |log| + 1
    && (forall i | 0 <= i < |at| :: 1 <= at[i] < position && seen[i] == log[at[i] - 1])
    && forall i, j | 0 <= i < j < |at| :: at[i] < at[j]
  }

  lemma LocatedGrows(seen: seq<Event>, at: seq<nat>, log: seq<Event>, position: nat, e: Event)
    requires Located(seen, at, log, position)
    ensures Located(seen, at, log + [e], position)
  {
  }

  /** A completed read continues the sequence of events seen. */
  lemma LocatedReads(seen: seq<Event>, at: seq<nat>, log: seq<Event>, position: nat, floor: nat, limit: nat)
    requires Located(seen, at, log, position) && 1 <= floor <= |log| + 1
    requires LogRead(log, floor, limit, position).Completed?
    ensures var r := LogRead(log, floor, limit, position);
            Located(seen + r.events, at + seq(|r.events|, i => r.next - |r.events| + i), log, r.next)
  {
    var r := LogRead(log, floor, limit, position);
    var start := r.next - |r.events|;
    assert r.events == log[start - 1..r.next - 1];
    LocatedSlice(log, start, r.next);
    LocatedConcat(seen, at, r.events, seq(|r.events|, i => start + i), log, position, start, r.next);
  }

  lemma LocatedSlice(log: seq<Event>, start: nat, next: nat)
    requires 1 <= start <= next <= |log| + 1
    ensures Located(log[start - 1..next - 1], seq(next - start, i => start + i), log, next)
    ensures From(seq(next - start, i => start + i), start)
  {
  }

  predicate From(at: seq<nat>, start: nat) {
    forall i | 0 <= i < |at| :: start <= at[i]
  }

  lemma LocatedConcat(a: seq<Event>, at: seq<nat>, b: seq<Event>, bt: seq<nat>, log: seq<Event>, position: nat,
                      start: nat, next: nat)
    requires Located(a, at, log, position) && Located(b, bt, log, next) && position <= start <= next
    requires From(bt, start)
    ensures Located(a + b, at + bt, log, next)
  {
    var seen, places := a + b, at + bt;
    forall i | 0 <= i < |places| ensures 1 <= places[i] < next && seen[i] == log[places[i] - 1] {
      if i < |at| { assert places[i] == at[i] && seen[i] == a[i]; }
      else { assert places[i] == bt[i - |at|] && seen[i] == b[i - |at|]; }
    }
    forall i, j | 0 <= i < j < |places| ensures places[i] < places[j] {
      if j < |at| { assert places[i] == at[i] && places[j] == at[j]; }
      else if i < |at| { assert places[i] == at[i] && places[j] == bt[j - |at|]; }
      else { assert places[i] == bt[i - |at|] && places[j] == bt[j - |at|]; }
    }
  }

  /** With nothing missed, the events seen are the log up to the cursor. */
  lemma {:induction false} NothingMissed(seen: seq<Event>, at: seq<nat>, log: seq<Event>, position: nat)
    requires Located(seen, at, log, position) && |seen| + 1 == position
    ensures seen == log[..position - 1]
  {
    forall i | 0 <= i < |at| ensures at[i] == i + 1 {
      AtLeast(at, i);
      AtMost(at, i, position);
    }
  }

  lemma {:induction false} AtLeast(at: seq<nat>, i: nat)
    requires i < |at| && (forall k | 0 <= k < |at| :: 1 <= at[k]) && forall j, k | 0 <= j < k < |at| :: at[j] < at[k]
    ensures i + 1 <= at[i]
  {
    if i > 0 { AtLeast(at, i - 1); }
  }

  lemma {:induction false} AtMost(at: seq<nat>, i: nat, position: nat)
    requires i < |at| && (forall k | 0 <= k < |at| :: at[k] < position) && forall j, k | 0 <= j < k < |at| ::
             at[j] < at[k]
    ensures at[i] + (|at| - i) <= position
    decreases |at| - i
  {
    if i + 1 < |at| { AtMost(at, i + 1, position); }
  }

  /** What a follower at `position` has seen and missed of the log. */
  ghost predicate Followed(seen: seq<Event>, missed: nat, log: seq<Event>, position: nat) {
    && |seen| + missed == (if position == 0 then 0 else position - 1)
    && exists at :: Located(seen, at, log, position)
  }

  lemma FollowedGrows(seen: seq<Event>, missed: nat, log: seq<Event>, position: nat, e: Event)
    requires Followed(seen, missed, log, position)
    ensures Followed(seen, missed, log + [e], position)
  {
    var at :| Located(seen, at, log, position);
    LocatedGrows(seen, at, log, position, e);
  }

  lemma FollowedReads(seen: seq<Event>, missed: nat, log: seq<Event>, position: nat, floor: nat, limit: nat)
    requires Followed(seen, missed, log, position) && 1 <= floor <= |log| + 1
             && LogRead(log, floor, limit, position).Completed?
    ensures var r := LogRead(log, floor, limit, position); Followed(seen + r.events, missed + r.missed, log, r.next)
  {
    var at :| Located(seen, at, log, position);
    LocatedReads(seen, at, log, position, floor, limit);
  }

  /** The follower knows exactly how much of the log it has passed, and all of it when nothing was missed. */
  lemma FollowedMeans(seen: seq<Event>, missed: nat, log: seq<Event>, position: nat)
    requires Followed(seen, missed, log, position)
    ensures |seen| + missed <= |log|
    ensures missed == 0 && position > 0 ==> seen == log[..position - 1]
  {
    var at :| Located(seen, at, log, position);
    if missed == 0 && position > 0 { NothingMissed(seen, at, log, position); }
  }

  /** Construction is refused for a ring without slots. */
  method NewRecorder(capacity: nat, id: nat) returns (recorder: Recorder?)
    requires capacity <= MAX_U64
    ensures recorder == null <==> capacity == 0
    ensures recorder != null ==>
              && recorder.Valid() && fresh(recorder) && fresh(recorder.events) && fresh(recorder.positions)
              && recorder.token == id && recorder.events.Length == capacity && recorder.log == []
              && recorder.cleared == 1
  {
    if capacity == 0 { return null; }
    recorder := new Recorder(capacity, id);
  }

  lemma {:induction false} WatchFollowed(capacity: nat, ops: seq<Op>)
    ensures var w := Watched(capacity, ops); Followed(w.seen, w.missed, w.log, w.position)
  {
    if ops == [] {
      assert Located([], [], [], 0);
    } else {
      WatchFollowed(capacity, ops[..|ops| - 1]);
      var w, op := Watched(capacity, ops[..|ops| - 1]), ops[|ops| - 1];
      match op
      case Complete(event, end, failed) =>
        FollowedGrows(w.seen, w.missed, w.log, w.position, Finished(event, end, failed));
      case Wipe =>
      case Poll(limit) =>
        if limit > 0 { FollowedReads(w.seen, w.missed, w.log, w.position, Floor(|w.log|, w.cleared, capacity), limit); }
    }
  }

  /** Over any script each event is seen at most once, in order, and seen and missed add up to the advance. */
  lemma SeenOnce(capacity: nat, ops: seq<Op>)
    ensures var w := Watched(capacity, ops);
            && |w.seen| + w.missed == (if w.position == 0 then 0 else w.position - 1) <= |w.log|
            && (exists at :: Located(w.seen, at, w.log, w.position))
            && (w.missed == 0 && w.position > 0 ==> w.seen == w.log[..w.position - 1])
  {
    var w := Watched(capacity, ops);
    WatchFollowed(capacity, ops);
    FollowedMeans(w.seen, w.missed, w.log, w.position);
  }

  function Start(position: nat): nat {
    if position == 0 then 1 else position
  }

  /** Cleared, or overwritten by as many later events as the ring holds. */
  predicate Gone(w: Watch, capacity: nat, p: nat) {
    p < w.cleared || p + capacity <= |w.log|
  }

  /** The n-th operation is the poll that moves the cursor past position `p`. */
  predicate PassesAt(capacity: nat, ops: seq<Op>, n: nat, p: nat) {
    && n < |ops| && ops[n].Poll?
    && Start(Watched(capacity, ops[..n]).position) <= p < Watched(capacity, ops[..n + 1]).position
  }

  /** A poll in state `w` found the event at `p` gone, or it is among the `seen` ones in its place. */
  predicate Decided(w: Watch, seen: seq<Event>, capacity: nat, p: nat)
    requires 1 <= p <= |w.log|
  {
    var from := Floor(|w.log|, w.cleared, capacity);
    if Gone(w, capacity, p) then p < from
    else
      var k := |w.seen| + p - (if Start(w.position) < from then from else Start(w.position));
      0 <= k < |seen| && seen[k] == w.log[p - 1]
  }

  /** That poll either returns the event at `p`, or finds it gone. */
  predicate Decides(capacity: nat, ops: seq<Op>, n: nat, p: nat)
    requires n <= |ops| && 1 <= p <= |Watched(capacity, ops[..n]).log|
  {
    Decided(Watched(capacity, ops[..n]), Watched(capacity, ops).seen, capacity, p)
  }

  /** A poll passes exactly the positions up to its new cursor, and sees those that are not gone. */
  lemma PollDecides(w: Watch, limit: nat, capacity: nat, p: nat)
    requires Sane(w) && Start(w.position) <= p < After(w, Poll(limit), capacity).position
    ensures var v, from := After(w, Poll(limit), capacity), Floor(|w.log|, w.cleared, capacity);
            && p <= |w.log| && (Gone(w, capacity, p) <==> p < from)
            && (p >= from ==>
                  var k := |w.seen| + p - (if Start(w.position) < from then from else Start(w.position));
                  |w.seen| <= k < |v.seen| && v.seen[k] == w.log[p - 1])
            && (p >= 1 ==> Decided(w, v.seen, capacity, p))
  {
  }

  lemma AfterGrows(w: Watch, op: Op, capacity: nat)
    requires Sane(w)
    ensures w.seen <= After(w, op, capacity).seen && w.position <= After(w, op, capacity).position
  {
  }

  lemma {:induction false} SeenGrows(capacity: nat, ops: seq<Op>, n: nat)
    requires n <= |ops|
    ensures Watched(capacity, ops[..n]).seen <= Watched(capacity, ops).seen
    ensures Watched(capacity, ops[..n]).position <= Watched(capacity, ops).position
  {
    if n == |ops| {
      assert ops[..n] == ops;
    } else {
      var front := ops[..|ops| - 1];
      SeenGrows(capacity, front, n);
      assert front[..n] == ops[..n];
      AfterGrows(Watched(capacity, front), ops[|ops| - 1], capacity);
    }
  }

  /** In particular along the script. */
  lemma PositionsGrow(capacity: nat, ops: seq<Op>, n: nat, m: nat)
    requires n <= m <= |ops|
    ensures Watched(capacity, ops[..n]).position <= Watched(capacity, ops[..m]).position
  {
    assert ops[..m][..n] == ops[..n];
    SeenGrows(capacity, ops[..m], n);
  }

  /** Every position below the cursor was passed by exactly one poll, which returned its event unless it was gone. */
  lemma {:induction false} EveryPositionDecided(capacity: nat, ops: seq<Op>, p: nat) returns (n: nat)
    requires 1 <= p < Watched(capacity, ops).position
    ensures PassesAt(capacity, ops, n, p) && p <= |Watched(capacity, ops[..n]).log| && Decides(capacity, ops, n, p)
    ensures forall m | PassesAt(capacity, ops, m, p) :: m == n
  {
    var front := ops[..|ops| - 1];
    if p < Watched(capacity, front).position {
      n := EveryPositionDecided(capacity, front, p);
      PrefixDecides(capacity, ops, n, p);
    } else {
      n := |front|;
      LastDecides(capacity, ops, p);
    }
    forall m | PassesAt(capacity, ops, m, p) ensures m == n { PassedOnce(capacity, ops, m, n, p); }
  }

  lemma LastDecides(capacity: nat, ops: seq<Op>, p: nat)
    requires ops != [] && Start(Watched(capacity, ops[..|ops| - 1]).position) <= p < Watched(capacity, ops).position
    ensures var n := |ops| - 1;
            PassesAt(capacity, ops, n, p) && p <= |Watched(capacity, ops[..n]).log| && Decides(capacity, ops, n, p)
  {
    var n := |ops| - 1;
    assert ops[..n + 1] == ops;
    PollDecides(Watched(capacity, ops[..n]), ops[n].limit, capacity, p);
  }

  lemma DecidedLonger(w: Watch, seen: seq<Event>, longer: seq<Event>, capacity: nat, p: nat)
    requires 1 <= p <= |w.log| && Decided(w, seen, capacity, p) && seen <= longer
    ensures Decided(w, longer, capacity, p)
  {
  }

  lemma PrefixDecides(capacity: nat, ops: seq<Op>, n: nat, p: nat)
    requires ops != [] && 1 <= p && PassesAt(capacity, ops[..|ops| - 1], n, p)
    requires p <= |Watched(capacity, ops[..|ops| - 1][..n]).log| && Decides(capacity, ops[..|ops| - 1], n, p)
    ensures PassesAt(capacity, ops, n, p) && p <= |Watched(capacity, ops[..n]).log| && Decides(capacity, ops, n, p)
  {
    var front := ops[..|ops| - 1];
    assert front[..n] == ops[..n] && front[..n + 1] == ops[..n + 1];
    AfterGrows(Watched(capacity, front), ops[|ops| - 1], capacity);
    DecidedLonger(Watched(capacity, ops[..n]), Watched(capacity, front).seen, Watched(capacity, ops).seen, capacity, p);
  }

  lemma PassedOnce(capacity: nat, ops: seq<Op>, m: nat, n: nat, p: nat)
    requires PassesAt(capacity, ops, m, p) && PassesAt(capacity, ops, n, p)
    ensures m == n
  {
    if m < n { PositionsGrow(capacity, ops, m + 1, n); }
    if n < m { PositionsGrow(capacity, ops, n + 1, m); }
  }

  /** A poll for at least the capacity catches up with the log. */
  lemma FullPollCatchesUp(capacity: nat, ops: seq<Op>, limit: nat)
    requires 0 < limit && capacity <= limit && |Watched(capacity, ops).log| < MAX_U64
    ensures After(Watched(capacity, ops), Poll(limit), capacity).position == |Watched(capacity, ops).log| + 1
  {
  }

  /** Follow a recorder through any script: what is seen and missed is what the script says of the log. */
  method Monitor(capacity: nat, ops: seq<Op>) returns (seen: seq<Event>, missed: nat, cursor: Cursor)
    requires capacity <= MAX_U64
    ensures capacity == 0 ==> seen == [] && missed == 0 && cursor.position == 0
    ensures capacity > 0 ==>
              var w := Watched(capacity, ops); seen == w.seen && missed == w.missed && cursor.position == w.position
  {
    seen, missed, cursor := [], 0, Cursor(0, 0);
    var recorder := NewRecorder(capacity, 0);
    if recorder == null { return; }
    for n := 0 to |ops|
      invariant fresh(recorder) && fresh(recorder.events) && fresh(recorder.positions)
      invariant recorder.Valid() && recorder.events.Length == capacity && cursor.token == recorder.token
      invariant Watch(recorder.log, recorder.cleared, cursor.position, seen, missed) == Watched(capacity, ops[..n])
    {
      assert ops[..n + 1][..n] == ops[..n];
      match ops[n]
      case Complete(event, end, failed) => recorder.Finish(event, end, failed);
      case Wipe => recorder.Clear();
      case Poll(limit) => seen, missed, cursor := Continue(recorder, limit, seen, missed, cursor);
    }
    assert ops[..|ops|] == ops;
  }

  /** One poll of a follower. */
  method Continue(recorder: Recorder, limit: nat, seen: seq<Event>, missed: nat, cursor: Cursor)
    returns (seen': seq<Event>, missed': nat, cursor': Cursor)
    requires recorder.Valid() && cursor.token == recorder.token && cursor.position <= |recorder.log| + 1
    ensures cursor'.token == recorder.token
    ensures var w := Watch(recorder.log, recorder.cleared, cursor.position, seen, missed);
            Watch(recorder.log, recorder.cleared, cursor'.position, seen', missed')
            == After(w, Poll(limit), recorder.events.Length)
  {
    var b := recorder.Follow(limit, cursor);
    if b.Rejected? { return seen, missed, cursor; }
    return seen + b.events, missed + b.missed, b.cursor;
  }
}
