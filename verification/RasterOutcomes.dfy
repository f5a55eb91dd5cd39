/**
 What a ticket is told (src/backend.cpp): exactly one event decides each ticket, and what it is told is what the
 surface, the renderer, a stop request or a failure said of it.
 */
module RasterOutcomes {
  import opened Common
  import opened RasterProtocol
  import opened RasterRuns

  /** What the surface says of the frame asked for; None for an exception. */
  function Refusal(a: Acquisition): seq<Option<Value>> {
    match a
    case NotAvailable => [Some(Unavailable)]
    case Stale => [Some(OutOfDate)]
    case Broken => [None]
    case Ready(d, mapped, matches) => if FrameAccepted(d, mapped) && matches then [] else [None]
  }

  function Shows(p: PresentResult): seq<Option<Value>> {
    match p
    case Shown => [Some(Presented)]
    case PresentStale => [Some(OutOfDate)]
    case PresentBroken => [None]
  }

  /** What one event decides about a ticket, if anything. */
  function Verdict(r: Raster, e: Event, t: Ticket): seq<Option<Value>> {
    match e
    case SubmitFrame(_) => []
    case Stop => if t in r.pending then [Some(Canceled)] else []
    case Work(a) =>
      match r.worker
      case Starting => if !a.factory && t in r.pending then [None] else []
      case Acquiring(u) => if t == u then Refusal(a.acquisition) else []
      case Rendering(u, _) => if t == u && !a.rendered then [None] else []
      case Presenting(u, _) => if t == u then Shows(a.present) else []
      case Failing(_) => if t in r.pending then [None] else []
      case _ => []
  }

  /** All that has been decided about a ticket, in order. */
  function Verdicts(events: seq<Event>, t: Ticket): seq<Option<Value>> {
    if events == [] then []
    else
      Verdicts(events[..|events| - 1], t) + Verdict(Run(events[..|events| - 1]), events[|events| - 1], t)
  }

  /** What must have been decided about the ticket in the worker's hands. */
  function Due(w: Worker): seq<Option<Value>> {
    match w
    case Finishing(_, outcome) => [Some(outcome)]
    case Failing(_) => [None]
    case _ => []
  }

  ghost predicate Fits(r: Raster, said: Ticket -> seq<Option<Value>>) {
    && (forall x | x in r.log.resolved :: said(x.ticket) == [x.outcome])
    && (forall t | t in r.pending :: said(t) == [])
    && (forall t | t in Held(r.worker) :: said(t) == Due(r.worker))
    && (forall t: Ticket | t.number >= |r.log.issued| :: said(t) == [])
  }

  /** What has been said once the event has had its say. */
  function Next(r: Raster, e: Event, said: Ticket -> seq<Option<Value>>): Ticket -> seq<Option<Value>> {
    t => said(t) + Verdict(r, e, t)
  }

  /** Nothing is both queued, held and resolved, and nothing of it is still to be issued. */
  lemma Apart(r: Raster, t: Ticket)
    requires TicketsOnce(r) && (t in r.pending || t in Held(r.worker))
    ensures t.number < |r.log.issued| && (forall x | x in r.log.resolved :: x.ticket != t)
    ensures !(t in r.pending && t in Held(r.worker))
  {
    var all := multiset(r.pending) + multiset(Held(r.worker)) + multiset(Tickets(r.log.resolved));
    Unresolved(r, t);
    IssuedOnce(r.log.issued, t);
    assert all[t] == 1;
  }

  /** An event that decides nothing, and moves tickets only from the queue to the worker. */
  lemma KeepsFits(r: Raster, v: Raster, e: Event, said: Ticket -> seq<Option<Value>>)
    requires Fits(r, said) && forall t :: Verdict(r, e, t) == []
    requires v.log.resolved == r.log.resolved && |v.log.issued| >= |r.log.issued|
    requires forall t | t in v.pending :: said(t) == []
    requires forall t | t in Held(v.worker) :: said(t) == Due(v.worker)
    ensures Fits(v, Next(r, e, said))
  {
    forall t ensures Next(r, e, said)(t) == said(t) { assert said(t) + [] == said(t); }
  }

  lemma SubmitFits(r: Raster, valid: bool, said: Ticket -> seq<Option<Value>>)
    requires Fits(r, said)
    ensures Fits(Submit(r, valid), Next(r, SubmitFrame(valid), said))
  {
    KeepsFits(r, Submit(r, valid), SubmitFrame(valid), said);
  }

  lemma ResolvedAll(tickets: seq<Ticket>, outcome: Option<Value>, x: Resolution)
    requires x in ResolveAll(tickets, outcome)
    ensures x.ticket in tickets && x.outcome == outcome
  {
  }

  /** Everything queued is resolved with what was just said of it. */
  lemma DrainFits(r: Raster, v: Raster, e: Event, outcome: Option<Value>, said: Ticket -> seq<Option<Value>>)
    requires TicketsOnce(r) && Fits(r, said) && v.pending == [] && v.log.issued == r.log.issued
    requires v.log.resolved == r.log.resolved + ResolveAll(r.pending, outcome)
    requires forall t :: Verdict(r, e, t) == if t in r.pending then [outcome] else []
    requires Held(v.worker) == Held(r.worker) && Due(v.worker) == Due(r.worker)
    ensures Fits(v, Next(r, e, said))
  {
    var next := Next(r, e, said);
    forall t ensures t !in r.pending ==> next(t) == said(t) { assert said(t) + [] == said(t); }
    forall x | x in v.log.resolved ensures next(x.ticket) == [x.outcome] {
      if x in r.log.resolved {
        if x.ticket in r.pending { Apart(r, x.ticket); }
      } else {
        ResolvedAll(r.pending, outcome, x);
        assert said(x.ticket) + [outcome] == [outcome];
      }
    }
    forall t | t in r.pending ensures t.number < |r.log.issued| && t !in Held(r.worker) { Apart(r, t); }
  }

  /** The worker keeps its ticket, and what is due to it is what was said. */
  predicate Decides(r: Raster, v: Raster, u: Ticket, said: seq<Option<Value>>) {
    && Held(r.worker) == [u] == Held(v.worker) && Due(r.worker) == [] && Due(v.worker) == said
    && v.pending == r.pending && v.log.issued == r.log.issued && v.log.resolved == r.log.resolved
  }

  lemma AcquireDecides(r: Raster, a: Acquisition)
    requires r.worker.Acquiring?
    ensures Decides(r, Acquire(r, r.worker.ticket, a), r.worker.ticket, Refusal(a))
  {
  }

  lemma RenderDecides(r: Raster, ok: bool)
    requires r.worker.Rendering?
    ensures Decides(r, Render(r, r.worker.ticket, r.worker.frame, ok), r.worker.ticket, if ok then [] else [None])
  {
  }

  lemma PresentDecides(r: Raster, p: PresentResult)
    requires r.worker.Presenting?
    ensures Decides(r, Present(r, r.worker.ticket, r.worker.frame, p), r.worker.ticket, Shows(p))
  {
  }

  /** The worker's ticket is decided, and the queue is left alone. */
  lemma DecideFits(r: Raster, v: Raster, e: Event, u: Ticket, verdict: seq<Option<Value>>,
                   said: Ticket -> seq<Option<Value>>)
    requires TicketsOnce(r) && Fits(r, said) && Decides(r, v, u, verdict)
    requires forall t :: Verdict(r, e, t) == if t == u then verdict else []
    ensures Fits(v, Next(r, e, said))
  {
    var next := Next(r, e, said);
    Apart(r, u);
    forall t ensures t != u ==> next(t) == said(t) { assert said(t) + [] == said(t); }
    assert u in Held(r.worker) && said(u) + Due(v.worker) == Due(v.worker);
  }

  lemma AcquireFits(r: Raster, a: Answers, said: Ticket -> seq<Option<Value>>)
    requires TicketsOnce(r) && Fits(r, said) && r.worker.Acquiring?
    ensures Fits(WorkerStep(r, a), Next(r, Work(a), said))
  {
    AcquireDecides(r, a.acquisition);
    DecideFits(r, WorkerStep(r, a), Work(a), r.worker.ticket, Refusal(a.acquisition), said);
  }

  lemma RenderFits(r: Raster, a: Answers, said: Ticket -> seq<Option<Value>>)
    requires TicketsOnce(r) && Fits(r, said) && r.worker.Rendering?
    ensures Fits(WorkerStep(r, a), Next(r, Work(a), said))
  {
    RenderDecides(r, a.rendered);
    DecideFits(r, WorkerStep(r, a), Work(a), r.worker.ticket, if a.rendered then [] else [None], said);
  }

  lemma PresentFits(r: Raster, a: Answers, said: Ticket -> seq<Option<Value>>)
    requires TicketsOnce(r) && Fits(r, said) && r.worker.Presenting?
    ensures Fits(WorkerStep(r, a), Next(r, Work(a), said))
  {
    PresentDecides(r, a.present);
    DecideFits(r, WorkerStep(r, a), Work(a), r.worker.ticket, Shows(a.present), said);
  }

  lemma StartFits(r: Raster, a: Answers, said: Ticket -> seq<Option<Value>>)
    requires TicketsOnce(r) && Fits(r, said) && r.worker.Starting?
    ensures Fits(WorkerStep(r, a), Next(r, Work(a), said))
  {
    if a.factory {
      KeepsFits(r, WorkerStep(r, a), Work(a), said);
    } else {
      DrainFits(r, WorkerStep(r, a), Work(a), None, said);
    }
  }

  lemma WakeFits(r: Raster, a: Answers, said: Ticket -> seq<Option<Value>>)
    requires Fits(r, said) && r.worker.Waiting?
    ensures Fits(WorkerStep(r, a), Next(r, Work(a), said))
  {
    if r.pending != [] { assert r.pending[0] in r.pending; }
    KeepsFits(r, WorkerStep(r, a), Work(a), said);
  }

  lemma FinishFits(r: Raster, a: Answers, said: Ticket -> seq<Option<Value>>)
    requires Fits(r, said) && r.worker.Finishing?
    ensures Fits(WorkerStep(r, a), Next(r, Work(a), said))
  {
    assert r.worker.ticket in Held(r.worker);
    forall t ensures Next(r, Work(a), said)(t) == said(t) { assert said(t) + [] == said(t); }
  }

  lemma FailFits(r: Raster, a: Answers, said: Ticket -> seq<Option<Value>>)
    requires TicketsOnce(r) && Fits(r, said) && r.worker.Failing?
    ensures Fits(WorkerStep(r, a), Next(r, Work(a), said))
  {
    var u, v, next := r.worker.ticket, WorkerStep(r, a), Next(r, Work(a), said);
    assert u in Held(r.worker);
    Apart(r, u);
    forall t ensures t !in r.pending ==> next(t) == said(t) { assert said(t) + [] == said(t); }
    forall x | x in v.log.resolved ensures next(x.ticket) == [x.outcome] {
      if x in r.log.resolved {
        if x.ticket in r.pending { Apart(r, x.ticket); }
      } else if x != Resolution(u, None) {
        ResolvedAll(r.pending, None, x);
        assert said(x.ticket) + [None] == [None];
      }
    }
    forall t | t in r.pending ensures t.number < |r.log.issued| { Apart(r, t); }
  }

  lemma StepFits(r: Raster, e: Event, said: Ticket -> seq<Option<Value>>)
    requires TicketsOnce(r) && Fits(r, said)
    ensures Fits(Step(r, e), Next(r, e, said))
  {
    match e
    case SubmitFrame(valid) => SubmitFits(r, valid, said);
    case Stop => DrainFits(r, RequestStop(r), Stop, Some(Canceled), said);
    case Work(a) =>
      match r.worker
      case Starting => StartFits(r, a, said);
      case Waiting => WakeFits(r, a, said);
      case Acquiring(_) => AcquireFits(r, a, said);
      case Rendering(_, _) => RenderFits(r, a, said);
      case Presenting(_, _) => PresentFits(r, a, said);
      case Finishing(_, _) => FinishFits(r, a, said);
      case Failing(_) => FailFits(r, a, said);
      case Exited => KeepsFits(r, r, e, said);
  }

  /** Only what a ticket has been told so far matters. */
  lemma SameFits(r: Raster, said: Ticket -> seq<Option<Value>>, same: Ticket -> seq<Option<Value>>)
    requires Fits(r, said) && forall t :: same(t) == said(t)
    ensures Fits(r, same)
  {
  }

  function SaidIn(events: seq<Event>): Ticket -> seq<Option<Value>> {
    t => Verdicts(events, t)
  }

  lemma {:induction false} FitsRun(events: seq<Event>)
    ensures Fits(Run(events), SaidIn(events))
  {
    if events != [] {
      var front, e := events[..|events| - 1], events[|events| - 1];
      FitsRun(front);
      RunOk(front);
      StepFits(Run(front), e, SaidIn(front));
      SameFits(Run(events), Next(Run(front), e, SaidIn(front)), SaidIn(events));
    }
  }

  /** Each resolved ticket was decided by exactly one event, and was told what that event said. */
  lemma ToldExactly(events: seq<Event>, x: Resolution)
    requires x in Run(events).log.resolved
    ensures Verdicts(events, x.ticket) == [x.outcome]
  {
    FitsRun(events);
    assert SaidIn(events)(x.ticket) == [x.outcome];
  }

  /** Nothing has been decided about a ticket that is queued or being drawn. */
  lemma UndecidedYet(events: seq<Event>, t: Ticket)
    requires var r := Run(events); t in r.pending || (Undecided(r.worker) && t in Held(r.worker))
    ensures Verdicts(events, t) == []
  {
    FitsRun(events);
    assert SaidIn(events)(t) == [];
  }

  lemma RowEnds(y: nat, height: nat, rowBytes: nat)
    requires y < height
    ensures y * rowBytes + rowBytes == (y + 1) * rowBytes <= rowBytes * height
  {
    ProductGrows(y + 1, height, rowBytes);
  }

  lemma ProductGrows(a: nat, b: nat, c: nat)
    requires a <= b
    ensures a * c <= c * b
  {
    assert c * b == a * c + (b - a) * c;
  }

  /** Every byte of every pixel of a usable frame is mapped, and rows do not overlap. */
  lemma PixelsMapped(d: Descriptor, mapped: nat, x: nat, y: nat, byte: nat)
    requires FrameAccepted(d, Some(mapped)) && x < d.width && y < d.height && byte < 4
    ensures y * d.rowBytes + 4 * x + byte < (y + 1) * d.rowBytes <= mapped
  {
    RowEnds(y, d.height, d.rowBytes);
  }

  // ---------------------------------------------------------------- which submissions get a ticket

  /** A stop request, a renderer that cannot be made, or the end of a failed frame. */
  predicate Halts(r: Raster, e: Event) {
    match e
    case SubmitFrame(_) => false
    case Stop => true
    case Work(a) => (r.worker.Starting? && !a.factory) || r.worker.Failing?
  }

  predicate Halted(events: seq<Event>) {
    events != [] && (Halted(events[..|events| - 1]) || Halts(Run(events[..|events| - 1]), events[|events| - 1]))
  }

  lemma HaltNext(r: Raster, e: Event)
    ensures Step(r, e).stopping <==> r.stopping || Halts(r, e)
    ensures !e.SubmitFrame? ==> Step(r, e).log.issued == r.log.issued && Step(r, e).nextFrame == r.nextFrame
  {
  }

  lemma {:induction false} StoppingExactly(events: seq<Event>)
    ensures Run(events).stopping <==> Halted(events)
  {
    if events != [] {
      StoppingExactly(events[..|events| - 1]);
      HaltNext(Run(events[..|events| - 1]), events[|events| - 1]);
    }
  }

  /** The public id of the n-th ticket: from one up, and from one again after the largest. */
  function IdOf(n: nat): nat {
    n % MAX_U64 + 1
  }

  lemma IdNext(n: nat)
    ensures IdOf(n + 1) == TakeId(After(IdOf(n)))
  {
    if n % MAX_U64 == MAX_U64 - 1 {
      assert n + 1 == MAX_U64 * (n / MAX_U64 + 1);
      assert (n + 1) % MAX_U64 == 0;
    } else {
      assert n + 1 == MAX_U64 * (n / MAX_U64) + (n % MAX_U64 + 1);
      assert (n + 1) % MAX_U64 == n % MAX_U64 + 1;
    }
  }

  lemma {:induction false} NextId(events: seq<Event>)
    ensures TakeId(Run(events).nextFrame) == IdOf(|Run(events).log.issued|)
  {
    if events != [] {
      var front, e := events[..|events| - 1], events[|events| - 1];
      NextId(front);
      HaltNext(Run(front), e);
      IdNext(|Run(front).log.issued|);
    }
  }

  /** A submission is given the next ticket exactly when it is valid and nothing has halted the thread. */
  lemma TicketsIssued(events: seq<Event>, valid: bool)
    ensures var r, v := Run(events), Run(events + [SubmitFrame(valid)]);
            var t := Ticket(|r.log.issued|, IdOf(|r.log.issued|));
            if valid && !Halted(events) then v.log.issued == r.log.issued + [t] && v.pending == r.pending + [t]
            else v == r
  {
    assert (events + [SubmitFrame(valid)])[..|events|] == events;
    RunOk(events);
    StoppingExactly(events);
    NextId(events);
  }
}
