/**
 The raster thread (src/backend.cpp): submitters and stop requests on one side, the worker on the
 other.  Every critical section and every call into the surface or the renderer is one step, and
 steps interleave freely.
 */
module RasterProtocol {
  import opened Common

  /** A queued frame: its place in the order of submission, and its public id. */
  datatype Ticket = Ticket(number: nat, id: nat)

  datatype Value = Presented | Unavailable | OutOfDate | Canceled
  datatype Resolution = Resolution(ticket: Ticket, outcome: Option<Value>)   // None: an exception

  datatype Worker =
    | Starting
    | Waiting
    | Acquiring(ticket: Ticket)
    | Rendering(ticket: Ticket, frame: nat)
    | Presenting(ticket: Ticket, frame: nat)
    | Finishing(ticket: Ticket, outcome: Value)
    | Failing(ticket: Ticket)
    | Exited

  /** A call that ends a frame: present (whatever it returned) or abandon. */
  datatype FrameEnd = FrameEnd(frame: nat, presented: bool)

  /** What was done, in order: tickets issued and resolved, frames shown, acquired and ended. */
  datatype Log = Log(
    issued: seq<Ticket>, resolved: seq<Resolution>, shown: seq<Ticket>, acquired: nat, ended: seq<FrameEnd>)

  datatype Raster = Raster(
    pending: seq<Ticket>, rendering: bool, stopping: bool, failed: bool, nextFrame: nat, worker: Worker, log: Log)

  const INITIAL: Raster := Raster([], false, false, false, 1, Starting, Log([], [], [], 0, []))

  // ---------------------------------------------------------------- submitters

  /** The next frame id of a wrapping counter that skips zero. */
  function TakeId(next: nat): nat {
    if next == 0 then 1 else next
  }

  function After(id: nat): nat {
    if id == MAX_U64 then 0 else id + 1
  }

  predicate Submits(r: Raster, valid: bool) {
    valid && !r.failed && !r.stopping
  }

  function Submit(r: Raster, valid: bool): Raster {
    if !Submits(r, valid) then r
    else
      var t := Ticket(|r.log.issued|, TakeId(r.nextFrame));
      r.(nextFrame := After(t.id), pending := r.pending + [t], log := r.log.(issued := r.log.issued + [t]))
  }

  function ResolveAll(tickets: seq<Ticket>, outcome: Option<Value>): seq<Resolution> {
    seq(|tickets|, i requires 0 <= i < |tickets| => Resolution(tickets[i], outcome))
  }

  function RequestStop(r: Raster): Raster {
    r.(stopping := true, pending := [],
       log := r.log.(resolved := r.log.resolved + ResolveAll(r.pending, Some(Canceled))))
  }

  // ---------------------------------------------------------------- worker

  function StartWorker(r: Raster, ok: bool): Raster {
    if ok then r.(worker := Waiting)
    else
      r.(failed := true, stopping := true, pending := [], worker := Exited,
         log := r.log.(resolved := r.log.resolved + ResolveAll(r.pending, None)))
  }

  function Wake(r: Raster): Raster {
    if r.pending != [] then r.(pending := r.pending[1..], rendering := true, worker := Acquiring(r.pending[0]))
    else if r.stopping then r.(worker := Exited)
    else r
  }

  const MAX_SIZE: nat := 0xffff_ffff_ffff_ffff
  const MAX_INT: nat := 0x7fff_ffff

  datatype Descriptor = Descriptor(width: nat, height: nat, rowBytes: nat, generation: nat, supported: bool)

  /** Usable: its pixels can be addressed and are all there; None stands for pixels that cannot be mapped. */
  predicate FrameAccepted(d: Descriptor, mapped: Option<nat>) {
    && 0 < d.width <= MAX_INT && 0 < d.height <= MAX_INT && d.generation != 0 && d.supported
    && d.width * 4 <= d.rowBytes && d.rowBytes * d.height <= MAX_SIZE
    && mapped.Some? && d.rowBytes * d.height <= mapped.value
  }

  /**
   What the surface comes up with.  A frame may be one that cannot be used, or one that does not match
   the request.  Broken: lost, consumed or an exception, without a frame.
   */
  datatype Acquisition =
    | Ready(descriptor: Descriptor, mapped: Option<nat>, matches: bool)
    | NotAvailable
    | Stale
    | Broken

  /** A frame that is refused has been abandoned. */
  function AcquireFrame(r: Raster, t: Ticket, usable: bool): Raster {
    var taken := r.log.(acquired := r.log.acquired + 1);
    if usable then r.(worker := Rendering(t, r.log.acquired), log := taken)
    else r.(worker := Failing(t), log := taken.(ended := r.log.ended + [FrameEnd(r.log.acquired, false)]))
  }

  function Acquire(r: Raster, t: Ticket, a: Acquisition): Raster {
    match a
    case Ready(d, mapped, matches) => AcquireFrame(r, t, FrameAccepted(d, mapped) && matches)
    case NotAvailable => r.(worker := Finishing(t, Unavailable))
    case Stale => r.(worker := Finishing(t, OutOfDate))
    case Broken => r.(worker := Failing(t))
  }

  /** A renderer that throws leaves its frame to be abandoned on the way out. */
  function Render(r: Raster, t: Ticket, frame: nat, ok: bool): Raster {
    if ok then r.(worker := Presenting(t, frame))
    else r.(worker := Failing(t), log := r.log.(ended := r.log.ended + [FrameEnd(frame, false)]))
  }

  datatype PresentResult = Shown | PresentStale | PresentBroken

  function Present(r: Raster, t: Ticket, frame: nat, p: PresentResult): Raster {
    var called := r.log.(ended := r.log.ended + [FrameEnd(frame, true)]);
    match p
    case Shown => r.(worker := Finishing(t, Presented), log := called.(shown := r.log.shown + [t]))
    case PresentStale => r.(worker := Finishing(t, OutOfDate), log := called)
    case PresentBroken => r.(worker := Failing(t), log := called)
  }

  function Finish(r: Raster, t: Ticket, outcome: Value): Raster {
    r.(rendering := false, worker := Waiting,
       log := r.log.(resolved := r.log.resolved + [Resolution(t, Some(outcome))]))
  }

  function Fail(r: Raster, t: Ticket): Raster {
    r.(failed := true, stopping := true, rendering := false, pending := [], worker := Exited,
       log := r.log.(resolved := r.log.resolved + ([Resolution(t, None)] + ResolveAll(r.pending, None))))
  }

  /** How the outside world answers the worker's next step. */
  datatype Answers = Answers(factory: bool, acquisition: Acquisition, rendered: bool, present: PresentResult)

  function WorkerStep(r: Raster, a: Answers): Raster {
    match r.worker
    case Starting => StartWorker(r, a.factory)
    case Waiting => Wake(r)
    case Acquiring(t) => Acquire(r, t, a.acquisition)
    case Rendering(t, frame) => Render(r, t, frame, a.rendered)
    case Presenting(t, frame) => Present(r, t, frame, a.present)
    case Finishing(t, outcome) => Finish(r, t, outcome)
    case Failing(t) => Fail(r, t)
    case Exited => r
  }

  // ---------------------------------------------------------------- runs

  datatype Event = SubmitFrame(valid: bool) | Stop | Work(answers: Answers)

  function Step(r: Raster, e: Event): Raster {
    match e
    case SubmitFrame(valid) => Submit(r, valid)
    case Stop => RequestStop(r)
    case Work(answers) => WorkerStep(r, answers)
  }

  function Run(events: seq<Event>): Raster {
    if events == [] then INITIAL
    else Step(Run(events[..|events| - 1]), events[|events| - 1])
  }

  // ---------------------------------------------------------------- invariant

  /** The ticket the worker holds. */
  function Held(w: Worker): seq<Ticket> {
    if w.Acquiring? || w.Rendering? || w.Presenting? || w.Finishing? || w.Failing? then [w.ticket] else []
  }

  /** The acquired frame that is neither presented nor abandoned yet. */
  function Live(w: Worker): seq<nat> {
    if w.Rendering? || w.Presenting? then [w.frame] else []
  }

  function Tickets(resolved: seq<Resolution>): seq<Ticket> {
    if resolved == [] then [] else Tickets(resolved[..|resolved| - 1]) + [resolved[|resolved| - 1].ticket]
  }

  predicate Numbered(issued: seq<Ticket>) {
    forall i | 0 <= i < |issued| :: issued[i].number == i && 0 < issued[i].id <= MAX_U64
  }

  /** Each issued ticket is queued, held by the worker, or resolved; none twice. */
  predicate TicketsOnce(r: Raster) {
    && Numbered(r.log.issued)
    && multiset(r.pending) + multiset(Held(r.worker)) + multiset(Tickets(r.log.resolved)) == multiset(r.log.issued)
  }

  /** Each acquired frame is ended exactly once, in the order of acquisition, or in the worker's hands. */
  predicate FramesOnce(r: Raster) {
    && (forall i | 0 <= i < |r.log.ended| :: r.log.ended[i].frame == i)
    && |r.log.ended| + |Live(r.worker)| == r.log.acquired
    && (Live(r.worker) != [] ==> r.worker.frame == |r.log.ended|)
  }

  /** Tickets in strictly increasing order of submission, all before `bound`. */
  predicate Ascending(tickets: seq<Ticket>, bound: int) {
    tickets == [] ||
    (tickets[|tickets| - 1].number < bound && Ascending(tickets[..|tickets| - 1], tickets[|tickets| - 1].number))
  }

  predicate Undecided(w: Worker) {
    w.Acquiring? || w.Rendering? || w.Presenting?
  }

  /** The queue is the tail of what was issued; the worker's ticket and what was shown precede it in order. */
  predicate InOrder(r: Raster) {
    var first := |r.log.issued| - |r.pending|;
    && first >= 0 && r.pending == r.log.issued[first..]
    && (Held(r.worker) != [] ==> r.worker.ticket.number < first)
    && Ascending(r.log.shown, if Undecided(r.worker) then r.worker.ticket.number else first)
  }

  predicate FlagsOk(r: Raster) {
    && (r.stopping ==> r.pending == [])
    && (r.failed ==> r.stopping)
    && (r.rendering <==> Held(r.worker) != [])
    && (r.worker.Exited? ==> r.stopping)
    && r.nextFrame <= MAX_U64
  }

  /** Tickets are told "presented" exactly when their frame was. */
  predicate Truthful(r: Raster) {
    && (forall x | x in r.log.resolved :: x.outcome == Some(Presented) <==> x.ticket in r.log.shown)
    && (forall t | t in Held(r.worker) :: t in r.log.shown <==> r.worker == Finishing(t, Presented))
  }

  predicate Inv(r: Raster) {
    FlagsOk(r) && TicketsOnce(r) && FramesOnce(r) && InOrder(r) && Truthful(r)
  }
}
