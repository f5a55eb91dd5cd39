/**
 Frames arrive (src/host.cpp): a request leaves a demand, what is demanded is asked of the native window, and the
 pulse that answers becomes a frame of the delegate.
 */
module WindowFrames {
  import opened Common
  import opened WindowProtocol
  import opened WindowRuns
  import opened WindowGuarantees
  import opened WindowReports

  // ---------------------------------------------------------------- demand and native requests

  /** What a step from `w` to `v` makes of the demand for a frame. */
  predicate Demands(w: Window, e: Event, v: Window) {
    var served := v.frame.pulses != w.frame.pulses;
    var failed := e.ControlStep? && e.fails && w.control != [] && w.control[0].generation == Some(w.frame.generation)
                  && w.frame.armed;
    var suppressed := w.frame.delivering && v.frame.generation != w.frame.generation;
    v.frame.demand == (e.RequestsFrame? || (!served && !failed && (w.frame.demand || suppressed)))
  }

  /**
   The native window is told exactly when an armed request is overtaken, which is then cancelled, or a new one is
   armed, which is then asked for under its generation.
   */
  predicate TellsNative(w: Window, e: Event, v: Window) {
    var moved := v.frame.generation != w.frame.generation;
    var cancel, asked := w.frame.armed && moved, if v.frame.armed && moved then Some(v.frame.generation) else None;
    v.control
    == (if e.ControlStep? && w.control != [] then w.control[1..] else w.control)
       + (if cancel || asked.Some? then [ControlTask(cancel, asked)] else [])
  }

  predicate Schedules(w: Window, e: Event, v: Window) {
    v.running ==> w.running && Demands(w, e, v) && TellsNative(w, e, v)
  }

  /** What `x` asks of the native window before it is finished. */
  predicate Asks(w: Window, x: Window, cancel: bool, generation: Option<nat>) {
    var moved := x.frame.generation != w.frame.generation;
    && x.control == w.control && cancel == (w.frame.armed && moved)
    && generation == if x.frame.armed && moved then Some(x.frame.generation) else None
  }

  lemma FinishSchedules(w: Window, e: Event, x: Window, cancel: bool, generation: Option<nat>, posts: Posts)
    requires w.running && !e.ControlStep? && x.control == w.control
    requires !x.frame.exhausted ==> Demands(w, e, x) && Asks(w, x, cancel, generation)
    ensures Schedules(w, e, Finish(x, cancel, generation, posts))
  {
    var wanted := cancel || generation.Some?;
    var sent := if wanted then x.(control := x.control + [ControlTask(cancel, generation)]) else x;
    ShutdownStops(x, posts.shutdown);
    ShutdownStops(sent.(frame := sent.frame.(exhausted := false)), posts.shutdown);
  }

  lemma RequestSchedules(w: Window, posts: Posts)
    requires w.running && Scheduled(w)
    ensures Schedules(w, RequestsFrame(posts), RequestFrame(w, posts))
  {
    var demanded := w.(frame := w.frame.(demand := true));
    FinishSchedules(w, RequestsFrame(posts), Arm(demanded), false, ArmedGeneration(demanded), posts);
  }

  lemma ChangeSchedules(w: Window, e: Event, metrics: Metrics, posts: Posts)
    requires w.running && Scheduled(w) && e.MetricsEvent?
    ensures Schedules(w, e, ChangeMetrics(w, metrics, posts))
  {
    var changed := Invalidate(w.(metrics := metrics));
    match posts.ui
    case Refused => ShutdownStops(Arm(changed), posts.shutdown);
    case Accepted =>
      FinishSchedules(w, e, Arm(changed).(ui := w.ui + [Invoke(w.delegate, MetricsChanged(metrics), false)]),
                      w.frame.armed, ArmedGeneration(changed), posts);
  }

  lemma ShowSchedules(w: Window, posts: Posts)
    requires w.running && Scheduled(w) && !w.visible
    ensures Schedules(w, VisibleEvent(true, posts), SetVisible(w, true, posts))
  {
    var shown := w.(visible := true);
    ShutdownStops(Arm(shown), posts.shutdown);
    FinishSchedules(w, VisibleEvent(true, posts),
                    Arm(shown).(ui := w.ui + [Invoke(w.delegate, VisibilityChanged(true), false)]),
                    false, ArmedGeneration(shown), posts);
  }

  lemma HideSchedules(w: Window, posts: Posts)
    requires w.running && Scheduled(w) && w.visible
    ensures Schedules(w, VisibleEvent(false, posts), SetVisible(w, false, posts))
  {
    var hidden := Invalidate(w.(visible := false, focused := false));
    ShutdownStops(hidden, posts.shutdown);
    FinishSchedules(w, VisibleEvent(false, posts),
                    hidden.(activePointers := {},
                            ui := w.ui + Cancels(w.delegate, Sorted(w.activePointers), false)
                                  + (if w.focused then [Invoke(w.delegate, FocusChanged(false), false)] else [])
                                  + [Invoke(w.delegate, VisibilityChanged(false), false)]),
                    w.frame.armed, None, posts);
  }

  lemma TellSchedules(w: Window, e: Event, next: Window, cancel: bool, generation: Option<nat>, posts: Posts)
    requires w.running && e.SurfaceEvent? && next.control == w.control
    requires !next.frame.exhausted ==> Demands(w, e, next) && Asks(w, next, cancel, generation)
    ensures Schedules(w, e, TellSurface(w, next, cancel, generation, posts))
  {
    match posts.ui
    case Refused => ShutdownStops(next, posts.shutdown);
    case Accepted => FinishSchedules(w, e, next.(ui := w.ui + SurfaceItems(w, next)), cancel, generation, posts);
  }

  lemma SurfaceSchedules(w: Window, surface: Surface, posts: Posts)
    requires w.running && Scheduled(w) && w.surface != surface
    ensures Schedules(w, SurfaceEvent(surface, posts), SetSurface(w, surface, posts))
  {
    var e := SurfaceEvent(surface, posts);
    var renewed := surface.OutOfDate? || surface.Available?;
    var metrics := if renewed then w.metrics.(generation := w.metrics.generation + 1) else w.metrics;
    var moved := w.(surface := surface, metrics := metrics);
    ShutdownStops(w, posts.shutdown);
    if surface.Available? {
      TellSchedules(w, e, Arm(moved), false, ArmedGeneration(moved), posts);
    } else {
      TellSchedules(w, e, Invalidate(moved), w.frame.armed, None, posts);
    }
  }

  lemma PulseSchedules(w: Window, timestamp: int, generation: nat, posts: Posts)
    requires w.running
    ensures Schedules(w, PulseEvent(timestamp, generation, posts), FramePulse(w, timestamp, generation, posts))
  {
    ShutdownStops(w.(frame := w.frame.(armed := false, delivering := false)), posts.shutdown);
    ShutdownStops(w.(frame := TakePulse(w.frame, timestamp)), posts.shutdown);
    assert |TakePulse(w.frame, timestamp).pulses| == |w.frame.pulses| + 1;
  }

  lemma CompleteSchedules(w: Window, posts: Posts)
    requires w.running && !w.frame.armed
    ensures Schedules(w, UiStep(posts), CompleteFrame(w, posts))
  {
    var idle := w.(frame := w.frame.(delivering := false));
    FinishSchedules(w, UiStep(posts), Arm(idle), false, ArmedGeneration(idle), posts);
  }

  lemma UiSchedules(w: Window, posts: Posts)
    requires Inv(w) && w.running
    ensures Schedules(w, UiStep(posts), RunUi(w, posts))
  {
    if w.ui != [] && w.ui[0].FrameDone? {
      FrameItemsHead(w.ui);
      CompleteSchedules(w.(ui := w.ui[1..]), posts);
    }
  }

  /** Neither frames nor native requests are touched. */
  lemma UntouchedSchedules(w: Window, e: Event, v: Window)
    requires w.running && v.frame == w.frame && v.control == w.control && !e.RequestsFrame? && !e.ControlStep?
    ensures Schedules(w, e, v)
  {
  }

  lemma StoppedSchedules(w: Window, e: Event, v: Window)
    requires !v.running
    ensures Schedules(w, e, v)
  {
  }

  lemma PostSchedules(w: Window, e: Event)
    requires w.running && (e.PointerInput? || e.OtherEvent? || e.FocusEvent?)
    ensures Schedules(w, e, Step(w, e))
  {
    var v := Step(w, e);
    if v.running { UntouchedSchedules(w, e, v); } else { StoppedSchedules(w, e, v); }
  }

  lemma BindUntouched(w: Window, alive: bool, posts: Posts)
    requires w.running
    ensures var v := Bind(w, alive, posts); v.running ==> v.frame == w.frame && v.control == w.control
  {
    ShutdownStops(w.(delegate := w.delegate + 1, alive := alive, activePointers := {}), posts.shutdown);
  }

  lemma BindSchedules(w: Window, e: Event)
    requires w.running && (e.BindDelegate? || e.UnbindDelegate? || e.DelegateDies? || e.ShutdownEvent?)
    ensures Schedules(w, e, Step(w, e))
  {
    var v := Step(w, e);
    match e {
      case BindDelegate(alive, posts) => BindUntouched(w, alive, posts);
      case ShutdownEvent(post) => ShutdownStops(w, post);
      case _ =>
    }
    if v.running { UntouchedSchedules(w, e, v); } else { StoppedSchedules(w, e, v); }
  }

  lemma ControlSchedules(w: Window, fails: bool)
    requires w.running
    ensures Schedules(w, ControlStep(fails), RunControl(w, fails))
  {
  }

  lemma MetricsSchedules(w: Window, shape: Shape, posts: Posts)
    requires w.running && Scheduled(w)
    ensures Schedules(w, MetricsEvent(shape, posts), SetMetrics(w, shape, posts))
  {
    var e := MetricsEvent(shape, posts);
    if w.metrics.shape == shape || w.metrics.generation == MAX_U64 || !ShapeValid(shape) {
      UntouchedSchedules(w, e, w);
    } else {
      ChangeSchedules(w, e, Metrics(shape, w.metrics.generation + 1), posts);
    }
  }

  lemma FactSchedules(w: Window, e: Event)
    requires w.running && Scheduled(w) && (e.VisibleEvent? || e.SurfaceEvent?)
    ensures Schedules(w, e, Step(w, e))
  {
    match e
    case VisibleEvent(visible, posts) =>
      if w.visible == visible { UntouchedSchedules(w, e, w); }
      else if visible { ShowSchedules(w, posts); } else { HideSchedules(w, posts); }
    case SurfaceEvent(surface, posts) =>
      if w.surface == surface { UntouchedSchedules(w, e, w); } else { SurfaceSchedules(w, surface, posts); }
  }

  /** Demand and native requests change exactly as stated, whatever the event. */
  lemma StepSchedules(w: Window, e: Event)
    requires Inv(w) && w.running
    ensures Schedules(w, e, Step(w, e))
  {
    match e
    case RequestsFrame(posts) => RequestSchedules(w, posts);
    case MetricsEvent(shape, posts) => MetricsSchedules(w, shape, posts);
    case VisibleEvent(_, _) => FactSchedules(w, e);
    case SurfaceEvent(_, _) => FactSchedules(w, e);
    case PulseEvent(timestamp, generation, posts) => PulseSchedules(w, timestamp, generation, posts);
    case UiStep(posts) => UiSchedules(w, posts);
    case ControlStep(fails) => ControlSchedules(w, fails);
    case PointerInput(_, _, _, _) => PostSchedules(w, e);
    case OtherEvent(_) => PostSchedules(w, e);
    case FocusEvent(_, _) => PostSchedules(w, e);
    case _ => BindSchedules(w, e);
  }

  lemma FramesScheduled(shape: Shape, visible: bool, events: seq<Event>, e: Event)
    requires Run(shape, visible, events + [e]).running
    ensures var w, v := Run(shape, visible, events), Run(shape, visible, events + [e]);
            w.running && Demands(w, e, v) && TellsNative(w, e, v)
  {
    RunOk(shape, visible, events);
    RunSnoc(shape, visible, events, e);
    StepKnows(Run(shape, visible, events), e);
    StepSchedules(Run(shape, visible, events), e);
  }

  // ---------------------------------------------------------------- from a pulse to a frame

  function Steps(n: nat, posts: Posts): seq<Event> {
    seq(n, _ => UiStep(posts))
  }

  lemma StepsNext(n: nat, posts: Posts)
    ensures Steps(n + 1, posts) == Steps(n, posts) + [UiStep(posts)]
  {
  }

  predicate OnlyCalls(ui: seq<UiItem>) {
    forall i | i in ui :: i.Invoke?
  }

  /** Nothing but callbacks in front of the frame. */
  lemma {:induction false} NoFrames(ui: seq<UiItem>)
    requires FrameItems(ui) == [] && forall i | i in ui :: !ShutdownItem(i)
    ensures OnlyCalls(ui)
  {
    if ui != [] {
      assert ui[0] in ui;
      NoFrames(ui[1..]);
      forall i | i in ui ensures i.Invoke? { assert i == ui[0] || i in ui[1..]; }
    }
  }

  ghost function Drained(w: Window, n: nat, posts: Posts): Window {
    if n == 0 then w else RunUi(Drained(w, n - 1, posts), posts)
  }

  lemma {:induction false} DrainedRun(shape: Shape, visible: bool, events: seq<Event>, n: nat, posts: Posts)
    ensures Run(shape, visible, events + Steps(n, posts)) == Drained(Run(shape, visible, events), n, posts)
  {
    if n == 0 {
      assert events + Steps(0, posts) == events;
    } else {
      DrainedRun(shape, visible, events, n - 1, posts);
      StepsNext(n - 1, posts);
      Associate(events, Steps(n - 1, posts), [UiStep(posts)]);
      RunSnoc(shape, visible, events + Steps(n - 1, posts), UiStep(posts));
    }
  }

  /** Only the queue and the history differ, and the queue is what is left. */
  predicate WorkedOff(w: Window, n: nat, v: Window) {
    n <= |w.ui| && v == w.(ui := w.ui[n..], delivered := v.delivered)
  }

  lemma WorkedOffNext(w: Window, n: nat, v: Window, posts: Posts)
    requires WorkedOff(w, n, v) && n < |w.ui| && w.ui[n].Invoke?
    ensures WorkedOff(w, n + 1, RunUi(v, posts))
  {
    assert w.ui[n..][1..] == w.ui[n + 1..] && v.ui[0] == w.ui[n];
  }

  /** Working off `n` callbacks changes the queue and the history only. */
  lemma {:induction false} CallsFirst(w: Window, n: nat, posts: Posts)
    requires n <= |w.ui| && forall i | 0 <= i < n :: w.ui[i].Invoke?
    ensures WorkedOff(w, n, Drained(w, n, posts))
  {
    if n == 0 {
      assert w.ui[0..] == w.ui;
    } else {
      CallsFirst(w, n - 1, posts);
      WorkedOffNext(w, n - 1, Drained(w, n - 1, posts), posts);
    }
  }

  /** Behind `n` callbacks a current frame is delivered. */
  lemma FrameNext(w: Window, n: nat, request: FrameRequest, posts: Posts)
    requires w.running && w.alive && n < |w.ui| && (forall i | 0 <= i < n :: w.ui[i].Invoke?)
    requires w.ui[n] == FrameCall(w.delegate, request) && FrameCurrent(w, request)
    ensures var log := Drained(w, n + 1, posts).delivered;
            log != [] && log[|log| - 1] == Delivery(w.delegate, FrameRequested(request))
  {
    CallsFirst(w, n, posts);
    assert w.ui[n..][0] == w.ui[n];
  }

  /** The window can take a pulse for what it has armed. */
  predicate TakesPulse(w: Window, timestamp: int, posts: Posts) {
    && w.running && w.visible && w.surface == Available && w.frame.armed
    && w.frame.nextSequence < MAX_U64 && posts.ui.Accepted? && timestamp >= 0
    && (w.frame.lastTimestamp.Some? ==> w.frame.lastTimestamp.value <= timestamp)
  }

  lemma PulseTakes(w: Window, timestamp: int, posts: Posts)
    requires Inv(w) && TakesPulse(w, timestamp, posts)
    ensures var request := FrameRequest(w.metrics, timestamp, w.frame.nextSequence);
            var v := FramePulse(w, timestamp, w.frame.generation, posts);
            && v.running && v.alive == w.alive && v.delegate == w.delegate && FrameCurrent(v, request)
            && v.ui == w.ui + [FrameCall(w.delegate, request), FrameDone] && OnlyCalls(w.ui)
            && forall i | 0 <= i < |w.ui| :: v.ui[i].Invoke?
  {
    NoFrames(w.ui);
  }

  predicate EndsWith(log: seq<Delivery>, d: Delivery) {
    log != [] && log[|log| - 1] == d
  }

  lemma FrameAfterPulse(w: Window, timestamp: int, posts: Posts)
    requires Inv(w) && w.alive && TakesPulse(w, timestamp, posts)
    ensures EndsWith(Drained(FramePulse(w, timestamp, w.frame.generation, posts), |w.ui| + 1, posts).delivered,
                     Delivery(w.delegate, FrameRequested(FrameRequest(w.metrics, timestamp, w.frame.nextSequence))))
  {
    PulseTakes(w, timestamp, posts);
    FrameNext(FramePulse(w, timestamp, w.frame.generation, posts), |w.ui|,
              FrameRequest(w.metrics, timestamp, w.frame.nextSequence), posts);
  }

  lemma PulseRun(shape: Shape, visible: bool, events: seq<Event>, timestamp: int, generation: nat, n: nat, posts: Posts)
    ensures Run(shape, visible, events + [PulseEvent(timestamp, generation, posts)] + Steps(n, posts))
            == Drained(FramePulse(Run(shape, visible, events), timestamp, generation, posts), n, posts)
  {
    RunSnoc(shape, visible, events, PulseEvent(timestamp, generation, posts));
    DrainedRun(shape, visible, events + [PulseEvent(timestamp, generation, posts)], n, posts);
  }

  /** An armed window that takes a pulse gets its delegate the frame, once the callbacks before it are made. */
  lemma FrameServed(shape: Shape, visible: bool, events: seq<Event>, timestamp: int, posts: Posts)
    requires var w := Run(shape, visible, events); w.alive && TakesPulse(w, timestamp, posts)
    ensures var w := Run(shape, visible, events);
            var later := [PulseEvent(timestamp, w.frame.generation, posts)] + Steps(|w.ui| + 1, posts);
            EndsWith(Run(shape, visible, events + later).delivered,
                     Delivery(w.delegate, FrameRequested(FrameRequest(w.metrics, timestamp, w.frame.nextSequence))))
  {
    var w := Run(shape, visible, events);
    RunOk(shape, visible, events);
    FrameAfterPulse(w, timestamp, posts);
    PulseRun(shape, visible, events, timestamp, w.frame.generation, |w.ui| + 1, posts);
    Associate(events, [PulseEvent(timestamp, w.frame.generation, posts)], Steps(|w.ui| + 1, posts));
  }
}
