/** The surface frame transaction and the raster thread's shared state, updated in place (src/backend.cpp). */
module RasterThread {
  import opened Common
  import P = RasterProtocol
  import R = RasterRuns

  // ---------------------------------------------------------------- SurfaceFrame

  datatype FrameCall = PresentCall | AbandonCall

  /** The division test detects exactly the products that do not fit. */
  lemma DivisionTest(rows: nat, bytes: nat, limit: nat)
    requires bytes > 0
    ensures rows > limit / bytes <==> bytes * rows > limit
  {
    var q := limit / bytes;
    assert bytes * q <= limit < bytes * (q + 1);
    if rows > q {
      assert bytes * rows >= bytes * (q + 1);
    } else {
      assert bytes * rows <= bytes * q;
    }
  }

  class SurfaceFrame {
    var active: bool
    ghost var calls: seq<FrameCall>     // what its delegate was asked to do

    /** The delegate has been called once, unless the transaction is still open. */
    ghost predicate Valid()
      reads this
    {
      |calls| == if active then 0 else 1
    }

    /** A frame that cannot be used is abandoned at once; None stands for pixels that cannot be mapped. */
    constructor (d: P.Descriptor, mapped: Option<nat>)
      ensures Valid() && active == P.FrameAccepted(d, mapped) && (!active ==> calls == [AbandonCall])
    {
      active, calls := false, [AbandonCall];
      new;
      if d.width == 0 || d.height == 0 || d.generation == 0 { return; }
      if !d.supported || d.width > P.MAX_INT || d.height > P.MAX_INT { return; }
      if d.width > P.MAX_SIZE / 4 || d.rowBytes < d.width * 4 { return; }
      DivisionTest(d.height, d.rowBytes, P.MAX_SIZE);
      if d.height > P.MAX_SIZE / d.rowBytes { return; }
      if mapped.None? || mapped.value < d.rowBytes * d.height { return; }
      active, calls := true, [];
    }

    /** Refused once the transaction is complete. */
    method Present() returns (ok: bool)
      requires Valid()
      modifies this
      ensures Valid() && !active && ok == old(active) && calls == (if ok then [PresentCall] else old(calls))
    {
      if !active { return false; }
      active := false;
      calls := calls + [PresentCall];
      return true;
    }

    /** Also what the destructor does. */
    method Abandon()
      requires Valid()
      modifies this
      ensures Valid() && !active && calls == (if old(active) then [AbandonCall] else old(calls))
    {
      if !active { return; }
      active := false;
      calls := calls + [AbandonCall];
    }
  }

  // ---------------------------------------------------------------- RasterThread

  /** What the delegate of each acquired frame has been asked to do is what the history says. */
  ghost predicate Told(frames: seq<SurfaceFrame>, ended: seq<P.FrameEnd>)
    reads frames
  {
    && |ended| <= |frames|
    && (forall i, j | 0 <= i < j < |frames| :: frames[i] != frames[j])
    && forall i | 0 <= i < |frames| :: frames[i].Valid() && frames[i].calls == Calls(ended, i)
  }

  function Calls(ended: seq<P.FrameEnd>, i: nat): seq<FrameCall> {
    if i >= |ended| then [] else if ended[i].presented then [PresentCall] else [AbandonCall]
  }

  class RasterState {
    var pending: seq<P.Ticket>
    var rendering: bool
    var stopping: bool
    var failed: bool
    var nextFrame: nat
    var worker: P.Worker
    var frame: SurfaceFrame?            // the frame in the worker's hands
    var log: P.Log                      // promises and frames, kept as the history of the run
    ghost var frames: seq<SurfaceFrame> // every frame acquired
    ghost var Repr: set<SurfaceFrame>

    ghost function View(): P.Raster
      reads this
    {
      P.Raster(pending, rendering, stopping, failed, nextFrame, worker, log)
    }

    /** The worker holds a frame exactly while one is open, and it is the last one acquired. */
    ghost predicate Holding(live: bool, ended: seq<P.FrameEnd>)
      reads this`frame, this`frames, this`Repr, frames
    {
      && Told(frames, ended) && (frame != null <==> live) && (frame != null ==> frame in Repr)
      && |frames| == |ended| + (if live then 1 else 0)
      && (live ==> frames[|ended|] == frame)
    }

    ghost predicate Valid()
      reads this, frames
    {
      Holding(P.Live(worker) != [], log.ended) && |frames| == log.acquired
    }

    /** With no frame open every delegate has been called, once. */
    lemma AllEnded()
      requires Valid() && P.Live(worker) == []
      ensures forall f | f in frames :: |f.calls| == 1
    {
      forall f | f in frames ensures |f.calls| == 1 {
        var i :| 0 <= i < |frames| && frames[i] == f;
        assert frames[i].calls == Calls(log.ended, i);
      }
    }

    constructor ()
      ensures Valid() && View() == P.INITIAL && Repr == {}
    {
      pending, rendering, stopping, failed, nextFrame, worker := [], false, false, false, 1, P.Starting;
      frame, frames, Repr, log := null, [], {}, P.Log([], [], [], 0, []);
    }

    /** Resolve everything queued with the same outcome: cancel_pending and fail_pending. */
    method ResolvePending(outcome: Option<P.Value>)
      modifies this`pending, this`log
      ensures pending == [] && log == old(log).(resolved := old(log).resolved + P.ResolveAll(old(pending), outcome))
    {
      for i := 0 to |pending|
        invariant pending == old(pending)
        invariant log == old(log).(resolved := old(log).resolved + P.ResolveAll(pending, outcome)[..i])
      {
        Associate(old(log).resolved, P.ResolveAll(pending, outcome)[..i], [P.Resolution(pending[i], outcome)]);
        assert P.ResolveAll(pending, outcome)[..i + 1] == P.ResolveAll(pending, outcome)[..i]
               + [P.Resolution(pending[i], outcome)];
        log := log.(resolved := log.resolved + [P.Resolution(pending[i], outcome)]);
      }
      assert P.ResolveAll(pending, outcome)[..|pending|] == P.ResolveAll(pending, outcome);
      pending := [];
    }

    method RequestStop()
      modifies this`stopping, this`pending, this`log
      ensures View() == P.RequestStop(old(View()))
    {
      stopping := true;
      ResolvePending(Some(P.Canceled));
    }

    /** The id counter wraps and skips zero. */
    method Submit(valid: bool) returns (id: Option<nat>)
      requires nextFrame <= MAX_U64
      modifies this`nextFrame, this`pending, this`log
      ensures id.Some? <==> P.Submits(old(View()), valid)
      ensures id.Some? ==> 0 < id.value <= MAX_U64
      ensures View() == P.Submit(old(View()), valid)
    {
      if !valid || failed || stopping { return None; }
      var next := nextFrame;
      nextFrame := (nextFrame + 1) % 0x1_0000_0000_0000_0000;
      if next == 0 {
        next := nextFrame;
        nextFrame := (nextFrame + 1) % 0x1_0000_0000_0000_0000;
      }
      var ticket := P.Ticket(|log.issued|, next);
      pending := pending + [ticket];
      log := log.(issued := log.issued + [ticket]);
      return Some(next);
    }

    method Resolve(ticket: P.Ticket, outcome: Option<P.Value>)
      modifies this`log
      ensures log == old(log).(resolved := old(log).resolved + [P.Resolution(ticket, outcome)])
    {
      log := log.(resolved := log.resolved + [P.Resolution(ticket, outcome)]);
    }

    /** The worker obtains its renderer, or fails for good. */
    method StartWorker(ok: bool)
      requires worker.Starting?
      modifies this`failed, this`stopping, this`worker, this`pending, this`log
      ensures View() == P.StartWorker(old(View()), ok)
    {
      if ok {
        worker := P.Waiting;
        return;
      }
      failed, stopping, worker := true, true, P.Exited;
      ResolvePending(None);
    }

    method Wake()
      requires worker.Waiting?
      modifies this`pending, this`rendering, this`worker
      ensures View() == P.Wake(old(View()))
    {
      if pending == [] {
        if stopping { worker := P.Exited; }
        return;
      }
      rendering, worker, pending := true, P.Acquiring(pending[0]), pending[1..];
    }

    /** Take the frame the surface offers; one that cannot be used or does not match is refused. */
    method TakeFrame(d: P.Descriptor, mapped: Option<nat>, matches: bool) returns (usable: bool)
      requires Holding(false, log.ended)
      modifies this`frame, this`frames, this`Repr
      ensures usable == (P.FrameAccepted(d, mapped) && matches)
      ensures |frames| == |old(frames)| + 1 && fresh(Repr - old(Repr))
      ensures Holding(usable, if usable then log.ended else log.ended + [P.FrameEnd(|old(frames)|, false)])
    {
      var offered := new SurfaceFrame(d, mapped);
      usable := offered.active && matches;
      if !usable { offered.Abandon(); }
      frame, frames, Repr := if usable then offered else null, frames + [offered], Repr + {offered};
    }

    /** The frame goes out of scope. */
    method DropFrame()
      requires Holding(true, log.ended)
      modifies this`frame, frame
      ensures Holding(false, log.ended + [P.FrameEnd(|log.ended|, false)])
    {
      frame.Abandon();
      frame := null;
    }

    /** Present the frame; it is open, so the transaction does not refuse. */
    method PresentFrame()
      requires Holding(true, log.ended)
      modifies this`frame, frame
      ensures Holding(false, log.ended + [P.FrameEnd(|log.ended|, true)])
    {
      var ok := frame.Present();
      frame := null;
    }

    method AcquireReady(d: P.Descriptor, mapped: Option<nat>, matches: bool)
      requires Valid() && worker.Acquiring?
      modifies this`worker, this`log, this`frame, this`frames, this`Repr
      ensures Valid()
      ensures View() == P.AcquireFrame(old(View()), old(worker).ticket, P.FrameAccepted(d, mapped) && matches)
      ensures fresh(Repr - old(Repr))
    {
      var t := worker.ticket;
      var usable := TakeFrame(d, mapped, matches);
      if usable {
        worker, log := P.Rendering(t, log.acquired), log.(acquired := log.acquired + 1);
      } else {
        worker := P.Failing(t);
        log := log.(acquired := log.acquired + 1, ended := log.ended + [P.FrameEnd(log.acquired, false)]);
      }
    }

    method AcquireStep(a: P.Acquisition)
      requires Valid() && worker.Acquiring?
      modifies this`worker, this`log, this`frame, this`frames, this`Repr
      ensures Valid() && View() == P.Acquire(old(View()), old(worker).ticket, a)
      ensures fresh(Repr - old(Repr))
    {
      var t := worker.ticket;
      match a
      case Ready(d, mapped, matches) => AcquireReady(d, mapped, matches);
      case NotAvailable => worker := P.Finishing(t, P.Unavailable);
      case Stale => worker := P.Finishing(t, P.OutOfDate);
      case Broken => worker := P.Failing(t);
    }

    method RenderStep(rendered: bool)
      requires Valid() && worker.Rendering? && worker.frame == |log.ended|
      modifies this`worker, this`log, this`frame, frame
      ensures Valid() && View() == P.Render(old(View()), old(worker).ticket, old(worker).frame, rendered)
    {
      var t, number := worker.ticket, worker.frame;
      if rendered {
        worker := P.Presenting(t, number);
      } else {
        DropFrame();
        worker, log := P.Failing(t), log.(ended := log.ended + [P.FrameEnd(number, false)]);
      }
    }

    method PresentStep(result: P.PresentResult)
      requires Valid() && worker.Presenting? && worker.frame == |log.ended|
      modifies this`worker, this`log, this`frame, frame
      ensures Valid() && View() == P.Present(old(View()), old(worker).ticket, old(worker).frame, result)
    {
      var t, number := worker.ticket, worker.frame;
      PresentFrame();
      log := log.(ended := log.ended + [P.FrameEnd(number, true)]);
      match result
      case Shown =>
        log := log.(shown := log.shown + [t]);
        worker := P.Finishing(t, P.Presented);
      case PresentStale => worker := P.Finishing(t, P.OutOfDate);
      case PresentBroken => worker := P.Failing(t);
    }

    /** Acquire, render and present one frame, a step at a time. */
    method Advance(a: P.Answers)
      requires Valid() && P.FramesOnce(View()) && P.Undecided(worker)
      modifies this`worker, this`log, this`frame, this`frames, this`Repr, frame
      ensures Valid() && View() == P.WorkerStep(old(View()), a)
      ensures fresh(Repr - old(Repr))
    {
      match worker
      case Acquiring(_) => AcquireStep(a.acquisition);
      case Rendering(_, _) => RenderStep(a.rendered);
      case Presenting(_, _) => PresentStep(a.present);
    }

    method Finish()
      requires worker.Finishing?
      modifies this`log, this`rendering, this`worker
      ensures View() == P.Finish(old(View()), old(worker).ticket, old(worker).outcome)
    {
      Resolve(worker.ticket, Some(worker.outcome));
      rendering, worker := false, P.Waiting;
    }

    /** The first failure ends the thread and everything still queued. */
    method Fail()
      requires worker.Failing?
      modifies this`failed, this`stopping, this`rendering, this`worker, this`pending, this`log
      ensures View() == P.Fail(old(View()), old(worker).ticket)
    {
      failed := true;
      Resolve(worker.ticket, None);
      ResolvePending(None);
      Associate(old(log).resolved, [P.Resolution(old(worker).ticket, None)], P.ResolveAll(old(pending), None));
      stopping, rendering, worker := true, false, P.Exited;
    }

    method Work(a: P.Answers)
      requires Valid() && P.FramesOnce(View())
      modifies this, frame
      ensures Valid() && View() == P.WorkerStep(old(View()), a)
      ensures fresh(Repr - old(Repr))
    {
      match worker
      case Starting => StartWorker(a.factory);
      case Waiting => Wake();
      case Finishing(_, _) => Finish();
      case Failing(_) => Fail();
      case Exited =>
      case _ => Advance(a);
    }

    method Handle(e: P.Event)
      requires Valid() && P.FramesOnce(View()) && nextFrame <= MAX_U64
      modifies this, frame
      ensures Valid() && View() == P.Step(old(View()), e)
      ensures fresh(Repr - old(Repr))
    {
      match e
      case SubmitFrame(valid) => var id := Submit(valid);
      case Stop => RequestStop();
      case Work(answers) => Work(answers);
    }

    method HandleNext(events: seq<P.Event>, n: nat)
      requires Valid() && n < |events| && View() == P.Run(events[..n])
      modifies this, frame
      ensures Valid() && View() == P.Run(events[..n + 1]) && fresh(Repr - old(Repr))
    {
      RunNext(events, n);
      Handle(events[n]);
    }
  }

  lemma RunNext(events: seq<P.Event>, n: nat)
    requires n < |events|
    ensures P.Run(events[..n + 1]) == P.Step(P.Run(events[..n]), events[n])
    ensures P.FramesOnce(P.Run(events[..n])) && P.Run(events[..n]).nextFrame <= MAX_U64
  {
    assert events[..n + 1][..n] == events[..n];
    R.RunOk(events[..n]);
  }

  /** Any interleaving of submissions, stop requests and worker steps. */
  method Drive(events: seq<P.Event>) returns (exited: bool, log: P.Log, ghost frames: seq<SurfaceFrame>)
    ensures log == P.Run(events).log && exited == P.Run(events).worker.Exited?
    ensures exited ==> multiset(P.Tickets(log.resolved)) == multiset(log.issued)
    ensures Told(frames, log.ended) && |frames| == log.acquired
    ensures exited ==> forall f | f in frames :: |f.calls| == 1
  {
    var state := new RasterState();
    for n := 0 to |events|
      invariant fresh(state) && fresh(state.Repr)
      invariant state.Valid() && state.View() == P.Run(events[..n])
    {
      state.HandleNext(events, n);
    }
    assert events[..|events|] == events;
    R.AllResolvedAtExit(events);
    if state.worker.Exited? { state.AllEnded(); }
    return state.worker.Exited?, state.log, state.frames;
  }
}
