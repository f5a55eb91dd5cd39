/**
 Publication comes to rest (src/host.cpp): once nothing new is asked of the host, its two executors
 empty their queues after a bounded number of tasks, in whatever order they take them, and what was
 rejected on the way is delivered by one retry.
 */
module AccessibilityDrain {
  import opened Common
  import opened Semantics
  import opened SemanticsDiff
  import opened SemanticsOrder
  import opened SemanticsDiffer
  import opened AccessibilityProtocol

  // ---------------------------------------------------------------- what is still to do

  /** The model the bridge is heading for: that of the open transaction, if there is one. */
  function Heading(b: Bridge): seq<Entry> {
    if b.transaction.Some? then b.transaction.value.candidate else b.acked
  }

  /** The desired tree is not the one the bridge is heading for; another publication may be needed. */
  predicate Behind(h: Host) {
    h.desired.Some? && Flattened(h.desired.value) != Heading(h.bridge)
  }

  /** An answer ends a publication; any other UI task may start one. */
  function Weight(t: UiTask): nat {
    if t.AnswerTask? then 1 else 4
  }

  function UiCost(ui: seq<UiTask>): nat {
    if ui == [] then 0 else Weight(ui[0]) + UiCost(ui[1..])
  }

  /** A bound on the tasks that will run: a publication takes a delivery and an answer. */
  function Cost(h: Host): nat {
    UiCost(h.ui) + 2 * |h.platform| + (if Behind(h) then 3 else 0) + if h.retryRequested then 3 else 0
  }

  lemma {:induction false} UiCostSnoc(ui: seq<UiTask>, t: UiTask)
    ensures UiCost(ui + [t]) == UiCost(ui) + Weight(t)
  {
    if ui == [] {
      assert ui + [t] == [t] && [t][1..] == [];
    } else {
      assert (ui + [t])[1..] == ui[1..] + [t];
      UiCostSnoc(ui[1..], t);
    }
  }

  // ---------------------------------------------------------------- one task

  /** An executor takes the task at the front of its queue; the adapter may fail a delivery. */
  datatype Turn = UiTurn | PlatformTurn(healthy: bool)

  function Take(h: Host, turn: Turn): Host {
    match turn
    case UiTurn => RunUi(h, Accepted)
    case PlatformTurn(healthy) => RunPlatform(h, healthy, Accepted)
  }

  predicate Due(h: Host, turn: Turn) {
    match turn
    case UiTurn => h.ui != []
    case PlatformTurn(_) => h.platform != []
  }

  /** Generations suffice for every publication that may still start. */
  predicate Supplied(h: Host) {
    h.bridge.nextGeneration + Cost(h) <= MAX_U64
  }

  /** From `h` to `v` a task has been paid for, and no more generations are needed than before. */
  predicate Paid(h: Host, v: Host) {
    Cost(v) < Cost(h) && v.bridge.nextGeneration + Cost(v) <= h.bridge.nextGeneration + Cost(h)
  }

  /** From an idle host a publication is prepared exactly when it is behind. */
  lemma PrepareBehind(p: Host)
    requires Basics(p) && Idle(p) && p.desired.Some? && p.bridge.nextGeneration < MAX_U64
    ensures var next := Flattened(p.desired.value);
            && (PrepareResult(p.bridge, next).Ready? <==> Behind(p))
            && (PrepareResult(p.bridge, next).Unchanged? <==> !Behind(p))
  {
    NothingToDeliver(p.bridge.acked, Flattened(p.desired.value));
  }

  /** Whether the host starts a publication when it dispatches the desired tree. */
  ghost predicate Starts(p: Host) {
    Idle(p) && p.installed && Behind(p)
  }

  lemma DispatchStarts(p: Host)
    requires p.running && Basics(p) && Starts(p) && p.bridge.nextGeneration < MAX_U64
    ensures var v := Dispatch(p, Accepted);
            && v.ui == p.ui && |v.platform| == |p.platform| + 1 && v.retryRequested == p.retryRequested
            && !Behind(v) && v.bridge.nextGeneration == p.bridge.nextGeneration + 1
  {
    PrepareBehind(p);
  }

  lemma DispatchStays(p: Host)
    requires p.running && Dispatchable(p) && !Starts(p) && p.bridge.nextGeneration < MAX_U64
    ensures Dispatch(p, Accepted) == p
  {
    if Idle(p) && p.installed && p.desired.Some? { PrepareBehind(p); }
  }

  /** Starting a publication costs less than being behind. */
  lemma DispatchPaid(p: Host)
    requires p.running && Dispatchable(p) && p.bridge.nextGeneration < MAX_U64
    ensures var v := Dispatch(p, Accepted);
            Cost(v) <= Cost(p) && v.bridge.nextGeneration + Cost(v) <= p.bridge.nextGeneration + Cost(p)
  {
    if Starts(p) { DispatchStarts(p); } else { DispatchStays(p); }
  }

  lemma PointPaid(h: Host)
    requires h.running && DispatchPoint(h).Some?
    ensures Cost(DispatchPoint(h).value) < Cost(h)
    ensures DispatchPoint(h).value.bridge.nextGeneration == h.bridge.nextGeneration
  {
  }

  lemma RetryPaid(h: Host, service: nat)
    requires h.running
    ensures var v := RetryOnUi(h, service, Accepted);
            && v.ui == h.ui
            && Cost(v) <= Cost(h) + 3 && v.bridge.nextGeneration + Cost(v) <= h.bridge.nextGeneration + Cost(h) + 3
  {
  }

  lemma UiPaid(h: Host)
    requires HostOk(h) && h.running && h.ui != [] && h.bridge.nextGeneration < MAX_U64
    ensures Paid(h, RunUi(h, Accepted))
  {
    if DispatchPoint(h).Some? {
      PointOk(h, Accepted);
      PointPaid(h);
      PointCounts(h);
      DispatchPaid(DispatchPoint(h).value);
    } else {
      OtherPaid(h);
    }
  }

  lemma OtherPaid(h: Host)
    requires h.running && h.ui != [] && DispatchPoint(h).None?
    ensures Paid(h, RunUi(h, Accepted))
  {
    var t, h1 := h.ui[0], h.(ui := h.ui[1..]);
    match t
    case PublishTask(_, _) =>
    case AnswerTask(service, generation, success) =>
      if !success { RetryPaid(Record(h1, generation, false), service); }
    case RetryTask(service) => RetryPaid(h1, service);
    case ResetTask(_) =>
  }

  lemma PlatformPaid(h: Host, healthy: bool)
    requires h.platform != []
    ensures Paid(h, RunPlatform(h, healthy, Accepted))
  {
    var t := h.platform[0];
    UiCostSnoc(h.ui, AnswerTask(t.service, t.publication.generation,
                                healthy && Accepts(h.model, t.publication.changes)));
  }

  /** What taking a task leaves alone. */
  predicate Same(h: Host, v: Host) {
    v.running == h.running && Keeps(h, v)
  }

  predicate Keeps(h: Host, v: Host) {
    v.published == h.published && v.installed == h.installed && v.service == h.service
  }

  lemma DispatchKeeps(h: Host)
    ensures Keeps(h, Dispatch(h, Accepted))
  {
  }

  lemma RetryKeeps(h: Host, service: nat)
    ensures Keeps(h, RetryOnUi(h, service, Accepted))
  {
  }

  lemma AnswerKeeps(h: Host, service: nat, generation: nat, success: bool)
    ensures Keeps(h, Answer(h, service, generation, success, Accepted))
  {
    DispatchKeeps(Record(h, generation, success));
    RetryKeeps(Record(h, generation, success), service);
  }

  lemma UiKeeps(h: Host)
    requires h.ui != []
    ensures Keeps(h, RunUi(h, Accepted))
  {
    var h1 := h.(ui := h.ui[1..]);
    match h.ui[0]
    case PublishTask(_, tree) => DispatchKeeps(h1.(desired := Some(tree)));
    case AnswerTask(service, generation, success) => AnswerKeeps(h1, service, generation, success);
    case RetryTask(service) => RetryKeeps(h1, service);
    case ResetTask(_) =>
      DispatchKeeps(h1.(bridge := ResetState(h.bridge), inFlight := false, retryPending := false,
                        retryRequested := false, publication := 0, publicationService := 0));
  }

  lemma TakeSame(h: Host, turn: Turn)
    requires HostOk(h) && h.running && h.bridge.nextGeneration < MAX_U64 && Due(h, turn)
    ensures Same(h, Take(h, turn))
  {
    match turn
    case UiTurn =>
      UiKeeps(h);
      if !RunUi(h, Accepted).running { UiStops(h, Accepted); }
    case PlatformTurn(_) =>
  }

  lemma TakeOk(h: Host, turn: Turn)
    requires HostOk(h) && h.running && Supplied(h) && Due(h, turn)
    ensures var v := Take(h, turn); HostOk(v) && Same(h, v) && Paid(h, v) && Supplied(v)
  {
    match turn {
      case UiTurn => RunUiOk(h, Accepted);
      case PlatformTurn(healthy) => RunPlatformOk(h, healthy, Accepted);
    }
    SomethingDue(h, turn);
    TakeSame(h, turn);
    match turn {
      case UiTurn => UiPaid(h);
      case PlatformTurn(healthy) => PlatformPaid(h, healthy);
    }
  }

  lemma SomethingDue(h: Host, turn: Turn)
    requires Due(h, turn)
    ensures Cost(h) > 0
  {
  }

  // ---------------------------------------------------------------- any schedule

  function TakeAll(h: Host, turns: seq<Turn>): Host {
    if turns == [] then h else Take(TakeAll(h, turns[..|turns| - 1]), turns[|turns| - 1])
  }

  /** Each turn finds a task in its queue. */
  predicate AllDue(h: Host, turns: seq<Turn>) {
    turns == [] ||
    (AllDue(h, turns[..|turns| - 1]) && Due(TakeAll(h, turns[..|turns| - 1]), turns[|turns| - 1]))
  }

  predicate Quiet(h: Host) {
    h.ui == [] && h.platform == []
  }

  /** However the executors take turns, and whatever the adapter fails, the cost bounds the tasks that run. */
  lemma {:induction false} EveryScheduleEnds(h: Host, turns: seq<Turn>)
    requires HostOk(h) && h.running && Supplied(h) && AllDue(h, turns)
    ensures var v := TakeAll(h, turns);
            HostOk(v) && Same(h, v) && Supplied(v) && |turns| + Cost(v) <= Cost(h)
  {
    if turns != [] {
      var front := turns[..|turns| - 1];
      EveryScheduleEnds(h, front);
      TakeOk(TakeAll(h, front), turns[|turns| - 1]);
    }
  }

  predicate AllHealthy(turns: seq<Turn>) {
    forall t | t in turns :: t.PlatformTurn? ==> t.healthy
  }

  /** Any schedule that has not emptied both queues can go on. */
  lemma Extend(h: Host, turns: seq<Turn>) returns (more: seq<Turn>)
    requires HostOk(h) && h.running && Supplied(h) && AllDue(h, turns) && AllHealthy(turns)
    ensures AllDue(h, more) && turns <= more && AllHealthy(more) && Quiet(TakeAll(h, more)) && |more| <= Cost(h)
    decreases Cost(h) - |turns|
  {
    EveryScheduleEnds(h, turns);
    var v := TakeAll(h, turns);
    if Quiet(v) {
      more := turns;
    } else {
      var turn := if v.ui != [] then UiTurn else PlatformTurn(true);
      assert (turns + [turn])[..|turns|] == turns;
      SomethingDue(v, turn);
      more := Extend(h, turns + [turn]);
    }
  }

  // ---------------------------------------------------------------- runs of the host

  function EventOf(turn: Turn): Event {
    match turn
    case UiTurn => UiStep(Accepted)
    case PlatformTurn(healthy) => PlatformStep(healthy, Accepted)
  }

  function Events(turns: seq<Turn>): seq<Event> {
    seq(|turns|, i requires 0 <= i < |turns| => EventOf(turns[i]))
  }

  lemma {:induction false} TurnsRun(events: seq<Event>, turns: seq<Turn>)
    ensures Run(events + Events(turns)) == TakeAll(Run(events), turns)
  {
    if turns == [] {
      assert events + Events(turns) == events;
    } else {
      var front := turns[..|turns| - 1];
      TurnsRun(events, front);
      assert (events + Events(turns))[..|events + Events(turns)| - 1] == events + Events(front);
    }
  }

  /**
   Quiescence: a running host of which nothing more is asked gets both queues empty within its cost,
   and with an adapter and no rejected batch waiting the adapter then holds the last published tree.
   */
  lemma Quiesces(events: seq<Event>) returns (turns: seq<Turn>)
    requires Run(events).running && Supplied(Run(events))
    ensures |turns| <= Cost(Run(events)) && AllDue(Run(events), turns) && AllHealthy(turns)
    ensures var h := Run(events + Events(turns));
            && Quiet(h) && Same(Run(events), h)
            && (h.installed && !h.retryPending ==> h.model == MapOf(Target(Run(events).published)))
  {
    RunOk(events);
    turns := Extend(Run(events), []);
    EveryScheduleEnds(Run(events), turns);
    TurnsRun(events, turns);
    var h := Run(events + Events(turns));
    if h.installed && !h.retryPending { Convergence(events + Events(turns)); }
  }

  // ---------------------------------------------------------------- recovery

  /** A publication is on its way to the adapter, and nothing else is under way. */
  ghost predicate OnItsWay(h: Host) {
    HostOk(h) && h.running && h.ui == [] && |h.platform| == 1 && Delivering(h)
  }

  function Candidate(h: Host): seq<Entry>
    requires h.bridge.transaction.Some?
  {
    h.bridge.transaction.value.candidate
  }

  /** A healthy adapter that has no objection to the bounds takes the candidate, and the answer gets back. */
  lemma Delivered(h: Host)
    requires OnItsWay(h) && AllBoundsOk(Candidate(h))
    ensures var v := Take(h, PlatformTurn(true));
            && HostOk(v) && Same(h, v) && v.ui == [AnswerTask(h.service, h.publication, true)] && v.platform == []
            && v == h.(ui := v.ui, platform := [], model := v.model)
  {
    RunPlatformOk(h, true, Accepted);
    assert LivePlatform(h.platform, h.service)[0] == h.platform[0] by { PlatformHead(h.platform, h.service); }
    DeliveryAccepted(h);
  }

  /** What a round leaves: the candidate is committed, and the desired tree follows when it is another one. */
  ghost predicate Moved(h: Host, v: Host)
    requires h.bridge.transaction.Some?
  {
    && HostOk(v) && Same(h, v) && v.ui == [] && v.desired == h.desired && v.bridge.acked == Candidate(h)
    && !v.retryPending
    && (if Behind(h) then OnItsWay(v) && Candidate(v) == Flattened(h.desired.value) else v.platform == [])
    && v.bridge.nextGeneration <= h.bridge.nextGeneration + 1
  }

  /** Committing a candidate makes the host idle, and it dispatches the desired tree. */
  lemma CommitPoint(h: Host)
    requires HostOk(h) && h.running && h.ui == [AnswerTask(h.service, h.publication, true)] && h.platform == []
    ensures h.bridge.transaction.Some? && DispatchPoint(h).Some?
    ensures var p := DispatchPoint(h).value;
            && Basics(p) && Idle(p) && p == h.(ui := [], bridge := p.bridge, inFlight := false, retryRequested := false)
            && p.bridge == Bridge(Candidate(h), None, h.bridge.nextGeneration) && h.installed
            && RunUi(h, Accepted) == Dispatch(p, Accepted)
  {
    AnswerFront(h);
    PointOk(h, Accepted);
  }

  /** The adapter's success commits the candidate. */
  lemma Committed(h: Host)
    requires HostOk(h) && h.running && h.bridge.nextGeneration < MAX_U64 && h.platform == []
    requires h.ui == [AnswerTask(h.service, h.publication, true)]
    ensures h.bridge.transaction.Some? && Moved(h, Take(h, UiTurn))
  {
    CommitPoint(h);
    RunUiOk(h, Accepted);
    TakeSame(h, UiTurn);
    Dispatched(DispatchPoint(h).value);
  }

  lemma Dispatched(p: Host)
    requires Basics(p) && Idle(p) && p.running && p.installed && p.ui == [] && p.platform == []
    requires p.bridge.nextGeneration < MAX_U64
    ensures var v := Dispatch(p, Accepted);
            && v.ui == [] && v.desired == p.desired && v.bridge.acked == p.bridge.acked && !v.retryPending
            && v.bridge.nextGeneration <= p.bridge.nextGeneration + 1
            && (if Behind(p) then OnItsWay(v) && Candidate(v) == Flattened(p.desired.value) else v.platform == [])
  {
    if p.desired.Some? { PrepareBehind(p); }
    DispatchOk(p, Accepted);
  }

  /** A delivery, its answer, and what follows. */
  lemma Round(h: Host)
    requires OnItsWay(h) && AllBoundsOk(Candidate(h)) && h.bridge.nextGeneration < MAX_U64
    ensures Moved(h, Take(Take(h, PlatformTurn(true)), UiTurn))
  {
    Delivered(h);
    Committed(Take(h, PlatformTurn(true)));
  }

  /** Retrying a rejected batch sends the same candidate again. */
  lemma Resent(h: Host)
    requires HostOk(h) && h.running && Quiet(h) && h.installed && h.retryPending && h.bridge.nextGeneration < MAX_U64
    ensures h.bridge.transaction.Some?
    ensures var v := Take(RetrySemantics(h, Accepted), UiTurn);
            && OnItsWay(v) && Same(h, v) && v.desired == h.desired && Candidate(v) == Candidate(h)
            && v.bridge.nextGeneration == h.bridge.nextGeneration + 1
  {
    var asked := RetrySemantics(h, Accepted);
    assert Rejected(h);
    assert asked.ui == [RetryTask(h.service)] && asked.(ui := asked.ui[1..]) == h;
    assert Take(asked, UiTurn) == RetryOnUi(h, h.service, Accepted);
    ResentNow(h);
  }

  lemma ResentNow(h: Host)
    requires HostOk(h) && h.running && Quiet(h) && Rejected(h) && h.bridge.nextGeneration < MAX_U64
    ensures var v := RetryOnUi(h, h.service, Accepted);
            && OnItsWay(v) && Same(h, v) && v.desired == h.desired && Candidate(v) == Candidate(h)
            && v.bridge.nextGeneration == h.bridge.nextGeneration + 1
  {
    RetryOk(h, h.service, Accepted);
  }

  lemma RetryRuns(events: seq<Event>)
    ensures Run(events + [Retry(Accepted)]) == RetrySemantics(Run(events), Accepted)
  {
    assert (events + [Retry(Accepted)])[..|events|] == events;
  }

  lemma {:induction false} TakeFirst(h: Host, turn: Turn, turns: seq<Turn>)
    ensures TakeAll(h, [turn] + turns) == TakeAll(Take(h, turn), turns)
  {
    if turns == [] {
      assert [turn] + turns == [turn] && [turn][..0] == [];
      assert TakeAll(h, []) == h;
    } else {
      var front := turns[..|turns| - 1];
      TakeFirst(h, turn, front);
      assert ([turn] + turns)[..|turns|] == [turn] + front;
    }
  }

  lemma TakeTwo(h: Host, a: Turn, b: Turn, turns: seq<Turn>)
    ensures TakeAll(h, [a] + ([b] + turns)) == TakeAll(Take(Take(h, a), b), turns)
  {
    TakeFirst(h, a, [b] + turns);
    TakeFirst(Take(h, a), b, turns);
  }

  predicate Arrived(h: Host, v: Host) {
    Quiet(v) && Same(h, v) && !v.retryPending
  }

  lemma LastRound(h: Host)
    requires OnItsWay(h) && h.bridge.nextGeneration < MAX_U64 && AllBoundsOk(Candidate(h)) && !Behind(h)
    ensures Arrived(h, TakeAll(h, [PlatformTurn(true)] + ([UiTurn] + [])))
  {
    Round(h);
    TakeTwo(h, PlatformTurn(true), UiTurn, []);
  }

  lemma FirstRound(h: Host, turns: seq<Turn>)
    requires OnItsWay(h) && h.bridge.nextGeneration + 2 <= MAX_U64 && AllBoundsOk(Candidate(h)) && Behind(h)
    requires AllBoundsOk(Target(h.desired)) && turns == [PlatformTurn(true)] + ([UiTurn] + [])
    ensures Arrived(h, TakeAll(h, [PlatformTurn(true)] + ([UiTurn] + turns)))
  {
    Round(h);
    LastRound(Take(Take(h, PlatformTurn(true)), UiTurn));
    TakeTwo(h, PlatformTurn(true), UiTurn, turns);
  }

  /** A round, and one more when the desired tree is another one. */
  lemma Rounds(h: Host) returns (turns: seq<Turn>)
    requires OnItsWay(h) && h.bridge.nextGeneration + 2 <= MAX_U64
    requires AllBoundsOk(Candidate(h)) && AllBoundsOk(Target(h.desired))
    ensures |turns| <= 4 && AllHealthy(turns) && Arrived(h, TakeAll(h, turns))
  {
    turns := [PlatformTurn(true)] + ([UiTurn] + []);
    if Behind(h) {
      FirstRound(h, turns);
      turns := [PlatformTurn(true)] + ([UiTurn] + turns);
    } else {
      LastRound(h);
    }
  }

  /**
   Recovery: a quiet host with a rejected batch holds the last published tree after one retry, as soon as
   the adapter is healthy and has no objection to the bounds of the batch and of that tree.
   */
  lemma Recovers(events: seq<Event>) returns (turns: seq<Turn>)
    requires var h := Run(events);
             && h.running && Quiet(h) && h.installed && h.retryPending && h.bridge.nextGeneration + 3 <= MAX_U64
             && h.bridge.transaction.Some? && AllBoundsOk(Candidate(h)) && AllBoundsOk(Target(h.published))
    ensures |turns| <= 5 && AllHealthy(turns)
    ensures var v := Run(events + [Retry(Accepted)] + Events(turns));
            Arrived(Run(events), v) && v.model == MapOf(Target(Run(events).published))
  {
    var asked := events + [Retry(Accepted)];
    RunOk(events);
    RetryRuns(events);
    Resent(Run(events));
    var more := Rounds(Take(Run(asked), UiTurn));
    TakeFirst(Run(asked), UiTurn, more);
    turns := [UiTurn] + more;
    TurnsRun(asked, turns);
    Convergence(asked + Events(turns));
  }
}
