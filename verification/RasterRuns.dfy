/** What every interleaving of submitters, stop requests and the raster worker guarantees. */
module RasterRuns {
  import opened Common
  import opened RasterProtocol

  // ---------------------------------------------------------------- small facts

  lemma {:induction false} TicketsConcat(a: seq<Resolution>, b: seq<Resolution>)
    ensures Tickets(a + b) == Tickets(a) + Tickets(b)
  {
    if b == [] {
      assert a + b == a && Tickets(a) + [] == Tickets(a);
    } else {
      var n := |b| - 1;
      assert (a + b)[..|a + b| - 1] == a + b[..n];
      TicketsConcat(a, b[..n]);
    }
  }

  lemma {:induction false} TicketsOfAll(tickets: seq<Ticket>, outcome: Option<Value>)
    ensures Tickets(ResolveAll(tickets, outcome)) == tickets
  {
    if tickets != [] {
      var n := |tickets| - 1;
      TicketsOfAll(tickets[..n], outcome);
      assert ResolveAll(tickets, outcome)[..n] == ResolveAll(tickets[..n], outcome);
    }
  }

  lemma {:induction false} TicketsHave(resolved: seq<Resolution>)
    ensures forall x | x in resolved :: x.ticket in Tickets(resolved)
  {
    if resolved != [] {
      var n := |resolved| - 1;
      TicketsHave(resolved[..n]);
      assert resolved == resolved[..n] + [resolved[n]];
    }
  }

  lemma {:induction false} IssuedOnce(issued: seq<Ticket>, t: Ticket)
    requires Numbered(issued) && t in issued
    ensures multiset(issued)[t] == 1
  {
    var n := |issued| - 1;
    assert issued == issued[..n] + [issued[n]];
    if t == issued[n] {
      assert t !in issued[..n];
    } else {
      assert t in issued[..n];
      IssuedOnce(issued[..n], t);
    }
  }

  /** What is held or queued has not been resolved. */
  lemma Unresolved(r: Raster, t: Ticket)
    requires TicketsOnce(r) && (t in r.pending || t in Held(r.worker))
    ensures t in r.log.issued && t !in Tickets(r.log.resolved) && forall x | x in r.log.resolved :: x.ticket != t
  {
    var all := multiset(r.pending) + multiset(Held(r.worker)) + multiset(Tickets(r.log.resolved));
    assert t in all;
    assert t in r.log.issued;
    IssuedOnce(r.log.issued, t);
    assert all[t] == 1;
    TicketsHave(r.log.resolved);
  }

  // ---------------------------------------------------------------- flags

  lemma FlagsStep(r: Raster, e: Event)
    requires FlagsOk(r)
    ensures FlagsOk(Step(r, e))
  {
  }

  // ---------------------------------------------------------------- tickets

  lemma SubmitTickets(r: Raster, valid: bool)
    requires TicketsOnce(r) && r.nextFrame <= MAX_U64
    ensures TicketsOnce(Submit(r, valid))
  {
  }

  /** Everything queued is resolved at once. */
  lemma DrainTickets(r: Raster, v: Raster, outcome: Option<Value>)
    requires TicketsOnce(r) && v.pending == [] && Held(v.worker) == Held(r.worker)
    requires v.log == r.log.(resolved := r.log.resolved + ResolveAll(r.pending, outcome))
    ensures TicketsOnce(v)
  {
    TicketsConcat(r.log.resolved, ResolveAll(r.pending, outcome));
    TicketsOfAll(r.pending, outcome);
  }

  /** The worker keeps its ticket and resolves nothing. */
  lemma KeepTickets(r: Raster, v: Raster)
    requires TicketsOnce(r) && v.pending == r.pending && Held(v.worker) == Held(r.worker)
    requires v.log.resolved == r.log.resolved && v.log.issued == r.log.issued
    ensures TicketsOnce(v)
  {
  }

  lemma HeadApart(tickets: seq<Ticket>)
    requires tickets != []
    ensures multiset(tickets) == multiset([tickets[0]]) + multiset(tickets[1..])
  {
    assert tickets == [tickets[0]] + tickets[1..];
  }

  lemma WakeTickets(r: Raster, a: Answers)
    requires TicketsOnce(r) && r.worker.Waiting?
    ensures TicketsOnce(WorkerStep(r, a))
  {
    if r.pending != [] { HeadApart(r.pending); }
  }

  lemma ResolveOne(resolved: seq<Resolution>, one: Resolution)
    ensures multiset(Tickets(resolved + [one])) == multiset(Tickets(resolved)) + multiset([one.ticket])
  {
    assert (resolved + [one])[..|resolved|] == resolved;
  }

  /** A ticket goes from the worker's hands to the resolved ones. */
  lemma MoveTicket(pending: seq<Ticket>, resolved: seq<Resolution>, one: Resolution)
    ensures multiset(pending) + multiset([one.ticket]) + multiset(Tickets(resolved))
            == multiset(pending) + multiset([]) + multiset(Tickets(resolved + [one]))
  {
    ResolveOne(resolved, one);
  }

  lemma FinishTickets(r: Raster, a: Answers)
    requires TicketsOnce(r) && r.worker.Finishing?
    ensures TicketsOnce(WorkerStep(r, a))
  {
    assert WorkerStep(r, a) == Finish(r, r.worker.ticket, r.worker.outcome) && Held(r.worker) == [r.worker.ticket];
    MoveTicket(r.pending, r.log.resolved, Resolution(r.worker.ticket, Some(r.worker.outcome)));
  }

  lemma FailTickets(r: Raster, a: Answers)
    requires TicketsOnce(r) && r.worker.Failing?
    ensures TicketsOnce(WorkerStep(r, a))
  {
    assert WorkerStep(r, a) == Fail(r, r.worker.ticket) && Held(r.worker) == [r.worker.ticket];
    MoveAll(r.pending, r.log.resolved, r.worker.ticket);
  }

  /** The ticket in the worker's hands and everything queued are resolved. */
  lemma MoveAll(pending: seq<Ticket>, resolved: seq<Resolution>, t: Ticket)
    ensures multiset(pending) + multiset([t]) + multiset(Tickets(resolved))
            == multiset([]) + multiset([])
               + multiset(Tickets(resolved + ([Resolution(t, None)] + ResolveAll(pending, None))))
  {
    var one, rest := [Resolution(t, None)], ResolveAll(pending, None);
    assert one[..0] == [];
    TicketsConcat(one, rest);
    TicketsOfAll(pending, None);
    TicketsConcat(resolved, one + rest);
  }

  lemma TicketsStep(r: Raster, e: Event)
    requires TicketsOnce(r) && r.nextFrame <= MAX_U64
    ensures TicketsOnce(Step(r, e))
  {
    match e
    case SubmitFrame(valid) => SubmitTickets(r, valid);
    case Stop => DrainTickets(r, RequestStop(r), Some(Canceled));
    case Work(a) => WorkTickets(r, a);
  }

  lemma StartTickets(r: Raster, a: Answers)
    requires TicketsOnce(r) && r.worker.Starting?
    ensures TicketsOnce(WorkerStep(r, a))
  {
    if a.factory { KeepTickets(r, WorkerStep(r, a)); } else { DrainTickets(r, WorkerStep(r, a), None); }
  }

  lemma HoldTickets(r: Raster, a: Answers)
    requires TicketsOnce(r) && (Undecided(r.worker) || r.worker.Exited?)
    ensures TicketsOnce(WorkerStep(r, a))
  {
    HoldShape(r, a);
    KeepTickets(r, WorkerStep(r, a));
  }

  lemma HoldShape(r: Raster, a: Answers)
    requires Undecided(r.worker) || r.worker.Exited?
    ensures var v := WorkerStep(r, a);
            v.pending == r.pending && Held(v.worker) == Held(r.worker) && v.log.resolved == r.log.resolved
                && v.log.issued == r.log.issued
  {
  }

  lemma WorkTickets(r: Raster, a: Answers)
    requires TicketsOnce(r)
    ensures TicketsOnce(WorkerStep(r, a))
  {
    if r.worker.Starting? { StartTickets(r, a); }
    else if r.worker.Waiting? { WakeTickets(r, a); }
    else if r.worker.Finishing? { FinishTickets(r, a); }
    else if r.worker.Failing? { FailTickets(r, a); }
    else { HoldTickets(r, a); }
  }

  // ---------------------------------------------------------------- frames

  lemma FramesStep(r: Raster, e: Event)
    requires FramesOnce(r)
    ensures FramesOnce(Step(r, e))
  {
    if e.Work? { WorkFrames(r, e.answers); }
  }

  /** Only acquiring, rendering and presenting touch a frame. */
  lemma WorkFrames(r: Raster, a: Answers)
    requires FramesOnce(r)
    ensures FramesOnce(WorkerStep(r, a))
  {
    match r.worker
    case Acquiring(t) => AcquireFrames(r, t, a.acquisition);
    case Rendering(t, frame) => RenderFrames(r, t, frame, a.rendered);
    case Presenting(t, frame) => PresentFrames(r, t, frame, a.present);
    case _ =>
  }

  lemma AcquireFrames(r: Raster, t: Ticket, a: Acquisition)
    requires FramesOnce(r) && r.worker == Acquiring(t)
    ensures FramesOnce(Acquire(r, t, a))
  {
  }

  lemma RenderFrames(r: Raster, t: Ticket, frame: nat, ok: bool)
    requires FramesOnce(r) && r.worker == Rendering(t, frame)
    ensures FramesOnce(Render(r, t, frame, ok))
  {
  }

  lemma PresentFrames(r: Raster, t: Ticket, frame: nat, p: PresentResult)
    requires FramesOnce(r) && r.worker == Presenting(t, frame)
    ensures FramesOnce(Present(r, t, frame, p))
  {
  }

  // ---------------------------------------------------------------- order

  lemma {:induction false} AscendingAt(tickets: seq<Ticket>, bound: int, i: nat, j: nat)
    requires Ascending(tickets, bound) && i <= j < |tickets|
    ensures tickets[j].number < bound && (i < j ==> tickets[i].number < tickets[j].number)
  {
    var n := |tickets| - 1;
    if j < n {
      AscendingAt(tickets[..n], tickets[n].number, i, j);
    } else if i < n {
      AscendingAt(tickets[..n], tickets[n].number, i, i);
    }
  }

  lemma SubmitOrder(r: Raster, valid: bool)
    requires InOrder(r)
    ensures InOrder(Submit(r, valid))
  {
    if Submits(r, valid) {
      var issued := r.log.issued;
      var t := Submit(r, valid).log.issued[|issued|];
      assert (issued + [t])[|issued| - |r.pending|..] == issued[|issued| - |r.pending|..] + [t];
    }
  }

  lemma WakeOrder(r: Raster)
    requires InOrder(r) && Numbered(r.log.issued) && r.worker.Waiting?
    ensures InOrder(Wake(r))
  {
    if r.pending != [] {
      var first := |r.log.issued| - |r.pending|;
      assert r.log.issued[first..][1..] == r.log.issued[first + 1..];
      assert r.pending[0] == r.log.issued[first];
    }
  }

  /** The worker goes on with its ticket, or lets go of it; the queue stays or is emptied. */
  lemma KeepOrder(r: Raster, v: Raster)
    requires InOrder(r) && v.log.issued == r.log.issued && v.log.shown == r.log.shown
             && (v.pending == r.pending || v.pending == [])
    requires Held(v.worker) == [] || Held(v.worker) == Held(r.worker)
    requires Undecided(v.worker) ==> Undecided(r.worker)
    ensures InOrder(v)
  {
    var first := |r.log.issued| - |r.pending|;
    assert r.log.issued[|r.log.issued|..] == [];
    assert Held(v.worker) != [] ==> v.worker.ticket == Held(v.worker)[0];
    if Undecided(r.worker) { AscendingWiderIf(r.log.shown, r.worker.ticket.number, first); }
    AscendingWiderIf(r.log.shown, first, |r.log.issued|);
  }

  lemma PresentOrder(r: Raster, t: Ticket, frame: nat, p: PresentResult)
    requires InOrder(r) && r.worker == Presenting(t, frame)
    ensures InOrder(Present(r, t, frame, p))
  {
    if p.Shown? {
      assert (r.log.shown + [t])[..|r.log.shown|] == r.log.shown;
    } else {
      KeepOrder(r, Present(r, t, frame, p));
    }
  }

  lemma WorkOrder(r: Raster, a: Answers)
    requires InOrder(r) && !r.worker.Waiting?
    ensures InOrder(WorkerStep(r, a))
  {
    if r.worker.Presenting? {
      PresentOrder(r, r.worker.ticket, r.worker.frame, a.present);
    } else {
      WorkShape(r, a);
      KeepOrder(r, WorkerStep(r, a));
    }
  }

  lemma WorkShape(r: Raster, a: Answers)
    requires !r.worker.Waiting? && !r.worker.Presenting?
    ensures var v := WorkerStep(r, a);
            && v.log.issued == r.log.issued && v.log.shown == r.log.shown && (v.pending == r.pending || v.pending == [])
            && (Held(v.worker) == [] || Held(v.worker) == Held(r.worker))
            && (Undecided(v.worker) ==> Undecided(r.worker))
  {
  }

  lemma AscendingWiderIf(tickets: seq<Ticket>, bound: int, wider: int)
    requires bound <= wider
    ensures Ascending(tickets, bound) ==> Ascending(tickets, wider)
  {
  }

  lemma StopOrder(r: Raster)
    requires InOrder(r)
    ensures InOrder(RequestStop(r))
  {
    KeepOrder(r, RequestStop(r));
  }

  lemma OrderStep(r: Raster, e: Event)
    requires InOrder(r) && Numbered(r.log.issued)
    ensures InOrder(Step(r, e))
  {
    match e
    case SubmitFrame(valid) => SubmitOrder(r, valid);
    case Stop => StopOrder(r);
    case Work(a) => if r.worker.Waiting? { WakeOrder(r); } else { WorkOrder(r, a); }
  }

  // ---------------------------------------------------------------- outcomes

  lemma {:induction false} ShownBefore(tickets: seq<Ticket>, bound: int, t: Ticket)
    requires Ascending(tickets, bound) && t.number >= bound
    ensures t !in tickets
  {
    if tickets != [] {
      var n := |tickets| - 1;
      assert tickets == tickets[..n] + [tickets[n]];
      ShownBefore(tickets[..n], tickets[n].number, t);
    }
  }

  /** What is queued has not been shown. */
  lemma QueuedUnshown(r: Raster)
    requires InOrder(r) && Numbered(r.log.issued)
    ensures forall t | t in r.pending :: t !in r.log.shown
  {
    var first := |r.log.issued| - |r.pending|;
    forall t | t in r.pending ensures t !in r.log.shown {
      var i :| 0 <= i < |r.pending| && r.pending[i] == t;
      assert t == r.log.issued[first + i];
      ShownBefore(r.log.shown, if Undecided(r.worker) then r.worker.ticket.number else first, t);
    }
  }

  lemma TruthStep(r: Raster, e: Event)
    requires Truthful(r) && TicketsOnce(r) && InOrder(r)
    ensures Truthful(Step(r, e))
  {
    match e
    case SubmitFrame(valid) =>
    case Stop => DrainTruth(r, Some(Canceled));
    case Work(a) => WorkTruth(r, a);
  }

  lemma DrainTruth(r: Raster, outcome: Option<Value>)
    requires Truthful(r) && TicketsOnce(r) && InOrder(r) && outcome != Some(Presented)
    ensures forall x | x in r.log.resolved + ResolveAll(r.pending, outcome) ::
            x.outcome == Some(Presented) <==> x.ticket in r.log.shown
  {
    QueuedUnshown(r);
    forall x | x in ResolveAll(r.pending, outcome) ensures x.ticket in r.pending && x.outcome == outcome { }
  }

  lemma WakeTruth(r: Raster, a: Answers)
    requires Truthful(r) && TicketsOnce(r) && InOrder(r) && r.worker.Waiting?
    ensures Truthful(WorkerStep(r, a))
  {
    QueuedUnshown(r);
  }

  lemma PresentTruth(r: Raster, t: Ticket, frame: nat, p: PresentResult)
    requires Truthful(r) && TicketsOnce(r) && r.worker == Presenting(t, frame)
    ensures Truthful(Present(r, t, frame, p))
  {
    assert t in Held(r.worker) && t !in r.log.shown;
    Unresolved(r, t);
    if p.Shown? { ShownTruth(r.log.resolved, r.log.shown, t); }
  }

  /** Showing a ticket that is not resolved yet changes nothing for the resolved ones. */
  lemma ShownTruth(resolved: seq<Resolution>, shown: seq<Ticket>, t: Ticket)
    requires forall x | x in resolved :: x.ticket != t
    ensures forall x | x in resolved :: x.ticket in shown + [t] <==> x.ticket in shown
  {
  }

  lemma FailTruth(r: Raster, a: Answers)
    requires Truthful(r) && TicketsOnce(r) && InOrder(r) && r.worker.Failing?
    ensures Truthful(WorkerStep(r, a))
  {
    var t := r.worker.ticket;
    assert t in Held(r.worker);
    DrainTruth(r, None);
    forall x | x in Fail(r, t).log.resolved ensures x.outcome == Some(Presented) <==> x.ticket in r.log.shown {
      assert x in r.log.resolved + ResolveAll(r.pending, None) || x == Resolution(t, None);
    }
  }

  lemma FinishTruth(r: Raster, a: Answers)
    requires Truthful(r) && r.worker.Finishing?
    ensures Truthful(WorkerStep(r, a))
  {
    assert r.worker.ticket in Held(r.worker);
  }

  /** Nothing is shown or resolved while the worker acquires and renders. */
  lemma HoldTruth(r: Raster, a: Answers)
    requires Truthful(r) && (r.worker.Acquiring? || r.worker.Rendering?)
    ensures Truthful(WorkerStep(r, a))
  {
    assert r.worker.ticket in Held(r.worker);
  }

  lemma StartTruth(r: Raster, a: Answers)
    requires Truthful(r) && TicketsOnce(r) && InOrder(r) && r.worker.Starting?
    ensures Truthful(WorkerStep(r, a))
  {
    DrainTruth(r, None);
  }

  lemma WorkTruth(r: Raster, a: Answers)
    requires Truthful(r) && TicketsOnce(r) && InOrder(r)
    ensures Truthful(WorkerStep(r, a))
  {
    match r.worker
    case Starting => StartTruth(r, a);
    case Waiting => WakeTruth(r, a);
    case Acquiring(_) => HoldTruth(r, a);
    case Rendering(_, _) => HoldTruth(r, a);
    case Presenting(t, frame) =>
      PresentTruth(r, t, frame, a.present);
      assert WorkerStep(r, a) == Present(r, t, frame, a.present);
    case Finishing(_, _) => FinishTruth(r, a);
    case Failing(_) => FailTruth(r, a);
    case Exited =>
  }

  // ---------------------------------------------------------------- runs

  lemma StepOk(r: Raster, e: Event)
    requires Inv(r)
    ensures Inv(Step(r, e))
  {
    FlagsStep(r, e);
    TicketsStep(r, e);
    FramesStep(r, e);
    OrderStep(r, e);
    TruthStep(r, e);
  }

  lemma InitialOk()
    ensures Inv(INITIAL)
  {
  }

  lemma {:induction false} RunOk(events: seq<Event>)
    ensures Inv(Run(events))
  {
    if events == [] {
      InitialOk();
    } else {
      RunOk(events[..|events| - 1]);
      StepOk(Run(events[..|events| - 1]), events[|events| - 1]);
    }
  }

  // ---------------------------------------------------------------- guarantees

  /** Every issued ticket is queued, in the worker's hands or resolved, exactly once. */
  lemma EveryTicketOnce(events: seq<Event>, t: Ticket)
    requires t in Run(events).log.issued
    ensures var r := Run(events);
            multiset(r.pending)[t] + multiset(Held(r.worker))[t] + multiset(Tickets(r.log.resolved))[t] == 1
  {
    RunOk(events);
    var r := Run(events);
    IssuedOnce(r.log.issued, t);
    assert (multiset(r.pending) + multiset(Held(r.worker)) + multiset(Tickets(r.log.resolved)))[t] == 1;
  }

  /** A stopping thread has nothing queued; when its worker is gone, every ticket has been resolved once. */
  lemma AllResolvedAtExit(events: seq<Event>)
    ensures var r := Run(events);
            && (r.stopping ==> r.pending == [])
            && (r.worker.Exited? ==> multiset(Tickets(r.log.resolved)) == multiset(r.log.issued))
  {
    RunOk(events);
  }

  /** Frames are shown in the order of submission, and exactly the tickets told so were shown. */
  lemma ShownInOrder(events: seq<Event>)
    ensures var log := Run(events).log;
            && (forall i, j | 0 <= i < j < |log.shown| :: log.shown[i].number < log.shown[j].number)
            && (forall x | x in log.resolved :: x.outcome == Some(Presented) <==> x.ticket in log.shown)
  {
    RunOk(events);
    var r := Run(events);
    var bound := if Undecided(r.worker) then r.worker.ticket.number else |r.log.issued| - |r.pending|;
    forall i, j | 0 <= i < j < |r.log.shown| ensures r.log.shown[i].number < r.log.shown[j].number {
      AscendingAt(r.log.shown, bound, i, j);
    }
  }

  /** The k-th call that ends a frame, and no other, ends this one. */
  predicate EndsAt(ended: seq<FrameEnd>, frame: nat, k: nat) {
    k < |ended| && forall i | 0 <= i < |ended| :: ended[i].frame == frame <==> i == k
  }

  /** Every acquired frame is presented or abandoned, exactly once, unless the worker still holds it. */
  lemma EveryFrameOnce(events: seq<Event>, frame: nat)
    requires frame < Run(events).log.acquired
    ensures var r := Run(events);
            if frame in Live(r.worker) then forall i | 0 <= i < |r.log.ended| :: r.log.ended[i].frame != frame
            else exists k :: EndsAt(r.log.ended, frame, k)
  {
    RunOk(events);
    var r := Run(events);
    if frame !in Live(r.worker) {
      assert EndsAt(r.log.ended, frame, frame);
    }
  }

  // ---------------------------------------------------------------- progress

  function RunFrom(r: Raster, events: seq<Event>): Raster {
    if events == [] then r else Step(RunFrom(r, events[..|events| - 1]), events[|events| - 1])
  }

  /** How often the worker gets its turn. */
  function Turns(events: seq<Event>): nat {
    if events == [] then 0
    else Turns(events[..|events| - 1]) + if events[|events| - 1].Work? then 1 else 0
  }

  /** The steps the worker needs to be done with what it is doing. */
  function Left(w: Worker): nat {
    match w
    case Acquiring(_) => 4
    case Rendering(_, _) => 3
    case Presenting(_, _) => 2
    case Finishing(_, _) => 1
    case Failing(_) => 1
    case Starting => 1
    case _ => 0
  }

  lemma {:induction false} RunFromRun(events: seq<Event>, more: seq<Event>)
    ensures Run(events + more) == RunFrom(Run(events), more)
  {
    if more == [] {
      assert events + more == events;
    } else {
      RunFromRun(events, more[..|more| - 1]);
      assert (events + more)[..|events + more| - 1] == events + more[..|more| - 1];
    }
  }

  // ---------------------------------------------------------------- stopping

  /** The steps until a stopping worker is gone. */
  function ToExit(w: Worker): nat {
    if w.Exited? then 0 else Left(w) + 1
  }

  lemma ExitNearer(r: Raster, e: Event)
    requires FlagsOk(r) && r.stopping
    ensures Step(r, e).stopping && ToExit(Step(r, e).worker) <= ToExit(r.worker)
    ensures e.Work? && !r.worker.Exited? ==> ToExit(Step(r, e).worker) < ToExit(r.worker)
  {
  }

  lemma {:induction false} ExitReached(r: Raster, events: seq<Event>)
    requires FlagsOk(r) && r.stopping
    ensures var v := RunFrom(r, events); FlagsOk(v) && v.stopping
    ensures var v := RunFrom(r, events); v.worker.Exited? || ToExit(v.worker) + Turns(events) <= ToExit(r.worker)
  {
    if events != [] {
      var front := events[..|events| - 1];
      ExitReached(r, front);
      FlagsStep(RunFrom(r, front), events[|events| - 1]);
      ExitNearer(RunFrom(r, front), events[|events| - 1]);
    }
  }

  lemma FlagsRun(events: seq<Event>)
    ensures FlagsOk(Run(events))
  {
    RunOk(events);
  }

  /** A stopping thread ends within five turns of its worker, whatever surface and renderer answer. */
  lemma StopsInTime(events: seq<Event>, more: seq<Event>)
    requires Run(events).stopping && Turns(more) >= 5
    ensures var r := Run(events + more);
            r.worker.Exited? && multiset(Tickets(r.log.resolved)) == multiset(r.log.issued)
  {
    FlagsRun(events);
    ExitReached(Run(events), more);
    RunFromRun(events, more);
    AllResolvedAtExit(events + more);
  }

  // ---------------------------------------------------------------- waiting

  predicate Settled(r: Raster, t: Ticket) {
    t in Tickets(r.log.resolved)
  }

  /** In the worker's hands, or `place` tickets away from the front of the queue. */
  predicate Waits(r: Raster, t: Ticket, place: Option<nat>) {
    match place
    case None => t in Held(r.worker)
    case Some(p) => p < |r.pending| && r.pending[p] == t
  }

  /** The worker's turns until a ticket is resolved: five for each ticket up to it. */
  function Wait(w: Worker, place: Option<nat>): nat {
    match place
    case None => Left(w)
    case Some(p) => Left(w) + 5 * (p + 1)
  }

  lemma SettledAmong(resolved: seq<Resolution>, more: seq<Resolution>, t: Ticket)
    ensures t in Tickets(resolved + more) <==> t in Tickets(resolved) || t in Tickets(more)
  {
    TicketsConcat(resolved, more);
  }

  /** What a step adds to the resolved tickets. */
  function Added(r: Raster, e: Event): seq<Resolution> {
    match e
    case SubmitFrame(_) => []
    case Stop => ResolveAll(r.pending, Some(Canceled))
    case Work(a) =>
      match r.worker
      case Starting => if a.factory then [] else ResolveAll(r.pending, None)
      case Finishing(t, outcome) => [Resolution(t, Some(outcome))]
      case Failing(t) => [Resolution(t, None)] + ResolveAll(r.pending, None)
      case _ => []
  }

  lemma StepAdds(r: Raster, e: Event)
    ensures Step(r, e).log.resolved == r.log.resolved + Added(r, e)
  {
  }

  lemma SettledStays(r: Raster, e: Event, t: Ticket)
    ensures Settled(Step(r, e), t) <==> Settled(r, t) || t in Tickets(Added(r, e))
  {
    StepAdds(r, e);
    SettledAmong(r.log.resolved, Added(r, e), t);
  }

  lemma DrainSettles(r: Raster, e: Event, t: Ticket, before: seq<Resolution>, outcome: Option<Value>)
    requires t in r.pending && Added(r, e) == before + ResolveAll(r.pending, outcome)
    ensures Settled(Step(r, e), t)
  {
    SettledStays(r, e, t);
    SettledAmong(before, ResolveAll(r.pending, outcome), t);
    TicketsOfAll(r.pending, outcome);
  }

  lemma OneSettles(r: Raster, e: Event, t: Ticket, one: Resolution, after: seq<Resolution>)
    requires one.ticket == t && Added(r, e) == [one] + after
    ensures Settled(Step(r, e), t)
  {
    SettledStays(r, e, t);
    SettledAmong([one], after, t);
    assert [one][..0] == [];
  }

  /** A step resolves the ticket, or leaves it no further away, and nearer when it is the worker's. */
  lemma WaitShorter(r: Raster, e: Event, t: Ticket, place: Option<nat>) returns (next: Option<nat>)
    requires FlagsOk(r) && Waits(r, t, place)
    ensures var v := Step(r, e);
            || Settled(v, t)
            || (Waits(v, t, next) && Wait(v.worker, next) + (if e.Work? then 1 else 0) <= Wait(r.worker, place))
  {
    next := place;
    match e {
      case SubmitFrame(_) =>
      case Stop => if place.Some? { DrainSettles(r, e, t, [], Some(Canceled)); }
      case Work(a) => next := WorkShorter(r, a, t, place);
    }
  }

  lemma WorkShorter(r: Raster, a: Answers, t: Ticket, place: Option<nat>) returns (next: Option<nat>)
    requires FlagsOk(r) && Waits(r, t, place)
    ensures var v := WorkerStep(r, a);
            Settled(v, t) || (Waits(v, t, next) && Wait(v.worker, next) + 1 <= Wait(r.worker, place))
  {
    next := place;
    match r.worker {
      case Starting => if !a.factory { DrainSettles(r, Work(a), t, [], None); }
      case Waiting => next := if place.value == 0 then None else Some(place.value - 1);
      case Finishing(u, outcome) => if place.None? { OneSettles(r, Work(a), t, Resolution(u, Some(outcome)), []); }
      case Failing(u) =>
        if place.None? {
          OneSettles(r, Work(a), t, Resolution(u, None), ResolveAll(r.pending, None));
        } else {
          DrainSettles(r, Work(a), t, [Resolution(u, None)], None);
        }
      case _ =>
    }
  }

  lemma {:induction false} WaitsOrSettled(r: Raster, events: seq<Event>, t: Ticket, place: Option<nat>)
    returns (next: Option<nat>)
    requires FlagsOk(r) && Waits(r, t, place)
    ensures var v := RunFrom(r, events);
            && FlagsOk(v)
            && (|| Settled(v, t)
                || (Waits(v, t, next) && Wait(v.worker, next) + Turns(events) <= Wait(r.worker, place)))
  {
    next := place;
    if events != [] {
      var front, e := events[..|events| - 1], events[|events| - 1];
      next := WaitsOrSettled(r, front, t, place);
      var v := RunFrom(r, front);
      FlagsStep(v, e);
      if Settled(v, t) { SettledStays(v, e, t); } else { next := WaitShorter(v, e, t, next); }
    }
  }

  lemma WaitPositive(r: Raster, t: Ticket, place: Option<nat>)
    requires Waits(r, t, place)
    ensures Wait(r.worker, place) > 0
  {
  }

  /**
   A ticket is resolved within five turns of the worker for each ticket up to it in the queue, and four
   more for what the worker holds: no later submission and no answer makes it wait longer.
   */
  lemma ResolvedInTime(events: seq<Event>, more: seq<Event>, t: Ticket, place: Option<nat>)
    requires Waits(Run(events), t, place) && Turns(more) >= Wait(Run(events).worker, place)
    ensures Settled(Run(events + more), t)
    ensures Wait(Run(events).worker, place) <= if place.None? then 4 else 4 + 5 * (place.value + 1)
  {
    FlagsRun(events);
    RunFromRun(events, more);
    var next := WaitsOrSettled(Run(events), more, t, place);
    if !Settled(Run(events + more), t) { WaitPositive(Run(events + more), t, next); }
  }
}
