/**
 The promises of the host window over every run, read directly off its state and off the
 history of callbacks.
 */
module WindowGuarantees {
  import opened Common
  import opened WindowProtocol
  import opened WindowRuns

  // ---------------------------------------------------------------- frame scheduling

  /** Never armed while delivering; armed only on demand; never idle when a frame could be asked for. */
  lemma SchedulerInvariant(shape: Shape, visible: bool, events: seq<Event>)
    ensures var w := Run(shape, visible, events);
            && !(w.frame.armed && w.frame.delivering)
            && (w.frame.armed ==> w.frame.demand && w.running)
            && (w.running && w.visible && w.surface == Available && w.frame.demand && !w.frame.delivering ==>
                w.frame.armed)
  {
    RunOk(shape, visible, events);
  }

  /** A native generation that produced a frame never produces another one. */
  lemma GenerationSpent(shape: Shape, visible: bool, events: seq<Event>, timestamp: int, generation: nat, posts: Posts)
    requires generation in Run(shape, visible, events).frame.pulses
    ensures FramePulse(Run(shape, visible, events), timestamp, generation, posts) == Run(shape, visible, events)
  {
    RunOk(shape, visible, events);
  }

  /** A frame that is suppressed because metrics, visibility or surface changed is still demanded. */
  lemma SuppressedStaysDemanded(shape: Shape, visible: bool, events: seq<Event>, posts: Posts)
    requires var w := Run(shape, visible, events);
             w.running && w.ui != [] && w.ui[0].FrameCall? && !FrameCurrent(w, w.ui[0].request)
    ensures var w := Run(shape, visible, events);
            w.frame.demand && RunUi(w, posts) == w.(ui := w.ui[1..])
  {
    RunOk(shape, visible, events);
    var w := Run(shape, visible, events);
    assert FrameItems(w.ui)[0] == w.ui[0];
  }

  // ---------------------------------------------------------------- the callback history

  lemma {:induction false} AllowedAt(log: seq<Delivery>, k: nat)
    requires LogOk(log) && k < |log|
    ensures LogOk(log[..k]) && Allowed(log[..k], log[k])
  {
    var front := log[..|log| - 1];
    if k < |front| {
      AllowedAt(front, k);
      assert front[..k] == log[..k];
    }
  }

  /** Every frame carries the metrics its delegate was last told, in sequence and in time order. */
  lemma FramesInOrder(shape: Shape, visible: bool, events: seq<Event>, k: nat)
    requires var log := Run(shape, visible, events).delivered; k < |log| && log[k].call.FrameRequested?
    ensures var log := Run(shape, visible, events).delivered;
            && Told(log[..k], log[k].delegate) == Some(log[k].call.request.metrics)
            && forall j | 0 <= j < k && log[j].call.FrameRequested? ::
                 && log[j].call.request.sequence < log[k].call.request.sequence
                 && log[j].call.request.timestamp <= log[k].call.request.timestamp
  {
    RunOk(shape, visible, events);
    var log := Run(shape, visible, events).delivered;
    AllowedAt(log, k);
    forall j | 0 <= j < k && log[j].call.FrameRequested? ensures log[j] in log[..k] {
      assert log[..k][j] == log[j];
    }
  }

  /** The phases of one pointer that one delegate received. */
  function Phases(log: seq<Delivery>, g: nat, p: nat): seq<Phase> {
    if log == [] then []
    else
      var last := log[|log| - 1];
      Phases(log[..|log| - 1], g, p)
      + if last.delegate == g && last.call.Pointer? && last.call.id == p then [last.call.phase] else []
  }

  predicate Ends(phase: Phase) {
    phase.Up? || phase.Cancel?
  }

  /** A prefix of (down move* (up|cancel))*: a down exactly at the start and after each end. */
  predicate StreamOk(phases: seq<Phase>) {
    forall k | 0 <= k < |phases| :: phases[k].Down? <==> k == 0 || Ends(phases[k - 1])
  }

  predicate Closed(phases: seq<Phase>) {
    phases == [] || Ends(phases[|phases| - 1])
  }

  lemma StreamExtends(phases: seq<Phase>, phase: Phase)
    requires StreamOk(phases) && (phase.Down? <==> Closed(phases))
    ensures StreamOk(phases + [phase]) && Closed(phases + [phase]) == Ends(phase)
  {
    var longer := phases + [phase];
    forall k | 0 <= k < |longer| ensures longer[k].Down? <==> k == 0 || Ends(longer[k - 1]) {
      if k < |phases| { assert phases[k].Down? <==> k == 0 || Ends(phases[k - 1]); }
      else if k > 0 { assert longer[k - 1] == phases[|phases| - 1] && phases != []; }
      else { assert phases == []; }
    }
    assert StreamOk(longer);
  }

  lemma {:induction false} StreamFollows(log: seq<Delivery>, g: nat, p: nat)
    requires LogOk(log)
    ensures StreamOk(Phases(log, g, p)) && PointerOpen(log, g, p) == Some(!Closed(Phases(log, g, p)))
  {
    if log != [] {
      StreamFollows(log[..|log| - 1], g, p);
      var before, last := Phases(log[..|log| - 1], g, p), log[|log| - 1];
      if last.delegate == g && last.call.Pointer? && last.call.id == p {
        StreamExtends(before, last.call.phase);
      } else {
        assert before + [] == before;
      }
    }
  }

  lemma PointerStreams(shape: Shape, visible: bool, events: seq<Event>, g: nat, p: nat)
    ensures StreamOk(Phases(Run(shape, visible, events).delivered, g, p))
  {
    RunOk(shape, visible, events);
    StreamFollows(Run(shape, visible, events).delivered, g, p);
  }

  /** The shutdown notice is the last callback of all, and every pointer was closed before it. */
  lemma ShutdownIsLast(shape: Shape, visible: bool, events: seq<Event>, k: nat, p: nat)
    requires var log := Run(shape, visible, events).delivered; k < |log| && log[k].call.ShuttingDown?
    ensures var log := Run(shape, visible, events).delivered;
            k == |log| - 1 && Closed(Phases(log[..k], log[k].delegate, p))
  {
    RunOk(shape, visible, events);
    var log := Run(shape, visible, events).delivered;
    AllowedAt(log, k);
    StreamFollows(log[..k], log[k].delegate, p);
    assert PointerOpen(log[..k], log[k].delegate, p) == Some(false);
  }

  // ---------------------------------------------------------------- delegates that were replaced

  /** `g` has been replaced or unbound: nothing is delivered to it any more. */
  predicate Parted(w: Window, g: nat) {
    g < w.delegate || (g == w.delegate && !w.alive)
  }

  /** What a step other than a callback leaves alone. */
  predicate Undelivered(w: Window, v: Window) {
    v.delivered == w.delivered && v.delegate >= w.delegate && (v.delegate == w.delegate && v.alive ==> w.alive)
  }

  lemma ShutdownKeeps(w: Window, post: Post)
    ensures Undelivered(w, Shutdown(w, post))
  {
  }

  lemma FinishKeeps(w: Window, cancel: bool, generation: Option<nat>, posts: Posts)
    ensures Undelivered(w, Finish(w, cancel, generation, posts))
  {
    var wanted := cancel || generation.Some?;
    var sent := if wanted then w.(control := w.control + [ControlTask(cancel, generation)]) else w;
    ShutdownKeeps(w, posts.shutdown);
    ShutdownKeeps(sent.(frame := sent.frame.(exhausted := false)), posts.shutdown);
  }

  lemma BindKeeps(w: Window, alive: bool, posts: Posts)
    ensures Undelivered(w, Bind(w, alive, posts))
  {
    ShutdownKeeps(w.(delegate := w.delegate + 1, alive := alive, activePointers := {}), posts.shutdown);
  }

  lemma MetricsKeep(w: Window, metrics: Metrics, posts: Posts)
    ensures Undelivered(w, ChangeMetrics(w, metrics, posts))
  {
    var changed := Invalidate(w.(metrics := metrics));
    ShutdownKeeps(Arm(changed), posts.shutdown);
    FinishKeeps(Arm(changed).(ui := w.ui + [Invoke(w.delegate, MetricsChanged(metrics), false)]),
                w.frame.armed, ArmedGeneration(changed), posts);
  }

  lemma ShowKeeps(w: Window, posts: Posts)
    requires !w.visible
    ensures Undelivered(w, SetVisible(w, true, posts))
  {
    var shown := w.(visible := true);
    ShutdownKeeps(Arm(shown), posts.shutdown);
    FinishKeeps(Arm(shown).(ui := w.ui + [Invoke(w.delegate, VisibilityChanged(true), false)]),
                false, ArmedGeneration(shown), posts);
  }

  lemma HideKeeps(w: Window, posts: Posts)
    requires w.visible
    ensures Undelivered(w, SetVisible(w, false, posts))
  {
    var hidden := Invalidate(w.(visible := false, focused := false));
    ShutdownKeeps(hidden, posts.shutdown);
    FinishKeeps(hidden.(activePointers := {},
                        ui := w.ui + Cancels(w.delegate, Sorted(w.activePointers), false)
                              + (if w.focused then [Invoke(w.delegate, FocusChanged(false), false)] else [])
                              + [Invoke(w.delegate, VisibilityChanged(false), false)]),
                w.frame.armed, None, posts);
  }

  lemma VisibleKeeps(w: Window, visible: bool, posts: Posts)
    ensures Undelivered(w, SetVisible(w, visible, posts))
  {
    if w.visible != visible { if visible { ShowKeeps(w, posts); } else { HideKeeps(w, posts); } }
  }

  lemma PulseKeeps(w: Window, timestamp: int, generation: nat, posts: Posts)
    ensures Undelivered(w, FramePulse(w, timestamp, generation, posts))
  {
    ShutdownKeeps(w.(frame := w.frame.(armed := false, delivering := false)), posts.shutdown);
    ShutdownKeeps(w.(frame := TakePulse(w.frame, timestamp)), posts.shutdown);
  }

  lemma TellKeeps(w: Window, next: Window, cancel: bool, generation: Option<nat>, posts: Posts)
    requires Undelivered(w, next)
    ensures Undelivered(w, TellSurface(w, next, cancel, generation, posts))
  {
    ShutdownKeeps(next, posts.shutdown);
    FinishKeeps(next.(ui := w.ui + SurfaceItems(w, next)), cancel, generation, posts);
  }

  lemma SurfaceKeeps(w: Window, surface: Surface, posts: Posts)
    ensures Undelivered(w, SetSurface(w, surface, posts))
  {
    var renewed := surface.OutOfDate? || surface.Available?;
    var metrics := if renewed then w.metrics.(generation := w.metrics.generation + 1) else w.metrics;
    var moved := w.(surface := surface, metrics := metrics);
    ShutdownKeeps(w, posts.shutdown);
    TellKeeps(w, Arm(moved), false, ArmedGeneration(moved), posts);
    TellKeeps(w, Invalidate(moved), w.frame.armed, None, posts);
  }

  lemma RequestKeeps(w: Window, posts: Posts)
    ensures Undelivered(w, RequestFrame(w, posts))
  {
    var demanded := w.(frame := w.frame.(demand := true));
    FinishKeeps(Arm(demanded), false, ArmedGeneration(demanded), posts);
  }

  lemma FocusKeeps(w: Window, focused: bool, posts: Posts)
    ensures Undelivered(w, SetFocused(w, focused, posts))
  {
    ShutdownKeeps(w.(focused := focused), posts.shutdown);
  }

  lemma PointerKeeps(w: Window, id: nat, phase: Phase, finite: bool, posts: Posts)
    ensures Undelivered(w, SendPointer(w, id, phase, finite, posts))
  {
    ShutdownKeeps(w, posts.shutdown);
  }

  lemma MetricsEventKeeps(w: Window, shape: Shape, posts: Posts)
    ensures Undelivered(w, SetMetrics(w, shape, posts))
  {
    MetricsKeep(w, Metrics(shape, w.metrics.generation + 1), posts);
  }

  lemma NotifyKeeps(w: Window, posts: Posts)
    ensures Undelivered(w, Notify(w, posts))
  {
    ShutdownKeeps(w, posts.shutdown);
  }

  lemma UnbindKeeps(w: Window, delegate: nat)
    ensures Undelivered(w, Unbind(w, delegate))
  {
  }

  lemma ControlKeeps(w: Window, fails: bool)
    ensures Undelivered(w, RunControl(w, fails))
  {
  }

  lemma EventKeeps(w: Window, e: Event)
    requires !e.UiStep?
    ensures Undelivered(w, Step(w, e))
  {
    match e
    case BindDelegate(alive, posts) => BindKeeps(w, alive, posts);
    case UnbindDelegate(delegate) => UnbindKeeps(w, delegate);
    case DelegateDies =>
    case RequestsFrame(posts) => RequestKeeps(w, posts);
    case MetricsEvent(shape, posts) => MetricsEventKeeps(w, shape, posts);
    case VisibleEvent(visible, posts) => VisibleKeeps(w, visible, posts);
    case FocusEvent(focused, posts) => FocusKeeps(w, focused, posts);
    case PulseEvent(timestamp, generation, posts) => PulseKeeps(w, timestamp, generation, posts);
    case PointerInput(id, phase, finite, posts) => PointerKeeps(w, id, phase, finite, posts);
    case SurfaceEvent(surface, posts) => SurfaceKeeps(w, surface, posts);
    case OtherEvent(posts) => NotifyKeeps(w, posts);
    case ShutdownEvent(post) => ShutdownKeeps(w, post);
    case ControlStep(fails) => ControlKeeps(w, fails);
  }

  lemma PhasesOfOthers(log: seq<Delivery>, d: Delivery, g: nat, p: nat)
    requires d.delegate != g
    ensures Phases(log + [d], g, p) == Phases(log, g, p)
  {
    assert (log + [d])[..|log|] == log && Phases(log, g, p) + [] == Phases(log, g, p);
  }

  /** A callback reaches the current delegate only. */
  lemma DeliverParted(w: Window, delegate: nat, call: Call, always: bool, g: nat, p: nat)
    requires Parted(w, g)
    ensures var v := Deliver(w, delegate, call, always);
            Parted(v, g) && Phases(v.delivered, g, p) == Phases(w.delivered, g, p)
  {
    if Reaches(w, delegate, always) { PhasesOfOthers(w.delivered, Delivery(delegate, call), g, p); }
  }

  lemma CompleteKeeps(w: Window, posts: Posts)
    ensures Undelivered(w, CompleteFrame(w, posts))
  {
    var idle := w.(frame := w.frame.(delivering := false));
    FinishKeeps(Arm(idle), false, ArmedGeneration(idle), posts);
  }

  lemma UiParted(w: Window, posts: Posts, g: nat, p: nat)
    requires Parted(w, g)
    ensures var v := RunUi(w, posts); Parted(v, g) && Phases(v.delivered, g, p) == Phases(w.delivered, g, p)
  {
    if w.ui != [] {
      var popped := w.(ui := w.ui[1..]);
      match w.ui[0]
      case Invoke(delegate, call, always) => DeliverParted(popped, delegate, call, always, g, p);
      case FrameCall(delegate, request) => DeliverParted(popped, delegate, FrameRequested(request), false, g, p);
      case FrameDone => CompleteKeeps(popped, posts);
      case ShutdownDone(_) =>
    }
  }

  lemma StepParted(w: Window, e: Event, g: nat, p: nat)
    requires Parted(w, g)
    ensures var v := Step(w, e); Parted(v, g) && Phases(v.delivered, g, p) == Phases(w.delivered, g, p)
  {
    if e.UiStep? { UiParted(w, e.posts, g, p); } else { EventKeeps(w, e); }
  }

  /** From `w` to `v` nothing has been delivered to `g`. */
  ghost predicate LeftAlone(w: Window, v: Window, g: nat, p: nat) {
    Parted(v, g) && Phases(v.delivered, g, p) == Phases(w.delivered, g, p)
  }

  lemma RunSnoc(shape: Shape, visible: bool, events: seq<Event>, e: Event)
    ensures Run(shape, visible, events + [e]) == Step(Run(shape, visible, events), e)
  {
    assert (events + [e])[..|events|] == events;
  }

  lemma LeftAloneNext(w: Window, v: Window, e: Event, g: nat, p: nat)
    requires LeftAlone(w, v, g, p)
    ensures LeftAlone(w, Step(v, e), g, p)
  {
    StepParted(v, e, g, p);
  }

  /**
   Replacing or unbinding a delegate ends its streams where they are: whatever follows, a shutdown included,
   a pointer that was down for it stays down, and every other stream stays closed.
   */
  lemma {:induction false} PartedStreams(shape: Shape, visible: bool, events: seq<Event>, more: seq<Event>, g: nat,
                                         p: nat)
    requires Parted(Run(shape, visible, events), g)
    ensures LeftAlone(Run(shape, visible, events), Run(shape, visible, events + more), g, p)
  {
    if more == [] {
      assert events + more == events;
    } else {
      var front, e := more[..|more| - 1], more[|more| - 1];
      PartedStreams(shape, visible, events, front, g, p);
      assert events + more == events + front + [e];
      RunSnoc(shape, visible, events + front, e);
      LeftAloneNext(Run(shape, visible, events), Run(shape, visible, events + front), e, g, p);
    }
  }

  /** A delegate is bound to a visible window, sees pointer `p` go down, and is replaced. */
  function Orphaning(p: nat, posts: Posts): seq<Event> {
    [BindDelegate(true, posts), UiStep(posts), UiStep(posts), PointerInput(p, Down, true, posts), UiStep(posts),
     BindDelegate(true, posts)]
  }

  lemma PopInvoke(w: Window, posts: Posts)
    requires w.running && w.alive && w.ui != [] && w.ui[0].Invoke? && w.ui[0].delegate == w.delegate
    ensures RunUi(w, posts) == w.(ui := w.ui[1..], delivered := w.delivered + [Delivery(w.delegate, w.ui[0].call)])
  {
  }

  /** What the first delegate of that script is told before it is replaced. */
  function TouchLog(shape: Shape, p: nat): seq<Delivery> {
    [Delivery(1, Created(Metrics(shape, 1))), Delivery(1, VisibilityChanged(true)), Delivery(1, Pointer(p, Down))]
  }

  lemma BoundFirst(shape: Shape, posts: Posts)
    requires posts.ui.Accepted?
    ensures Bind(Initial(shape, true), true, posts) ==
            Initial(shape, true).(delegate := 1, alive := true, ui := [Invoke(1, Created(Metrics(shape, 1)), false),
                                                                       Invoke(1, VisibilityChanged(true), false)])
  {
  }

  lemma TouchedNext(shape: Shape, w: Window, p: nat, posts: Posts)
    requires posts.ui.Accepted? && w.running && w.alive && w.visible && w.delegate == 1 && w.activePointers == {}
    requires w.ui == [Invoke(1, Created(Metrics(shape, 1)), false), Invoke(1, VisibilityChanged(true), false)]
    requires w.delivered == []
    ensures var v := RunUi(SendPointer(RunUi(RunUi(w, posts), posts), p, Down, true, posts), posts);
            v.running && v.delegate == 1 && v.delivered == TouchLog(shape, p)
  {
    PopInvoke(w, posts);
    var one := RunUi(w, posts);
    PopInvoke(one, posts);
    var two := RunUi(one, posts);
    assert two.ui == [];
    var down := SendPointer(two, p, Down, true, posts);
    assert down.ui == [Invoke(1, Pointer(p, Down), false)] && down.delivered == two.delivered;
    PopInvoke(down, posts);
  }

  lemma RunFive(shape: Shape, a: Event, b: Event, c: Event, d: Event, e: Event)
    ensures Run(shape, true, [a, b, c, d, e]) == Step(Step(Step(Step(Step(Initial(shape, true), a), b), c), d), e)
  {
    var s1, s2, s3, s4 := [a], [a, b], [a, b, c], [a, b, c, d];
    assert [] + [a] == s1 && s1 + [b] == s2 && s2 + [c] == s3 && s3 + [d] == s4 && s4 + [e] == [a, b, c, d, e];
    RunSnoc(shape, true, [], a);
    RunSnoc(shape, true, s1, b);
    RunSnoc(shape, true, s2, c);
    RunSnoc(shape, true, s3, d);
    RunSnoc(shape, true, s4, e);
  }

  lemma Touched(shape: Shape, p: nat, posts: Posts)
    requires posts.ui.Accepted?
    ensures var w := Run(shape, true, Orphaning(p, posts)[..5]);
            w.running && w.delegate == 1 && w.delivered == TouchLog(shape, p)
  {
    var bind, ui, down := BindDelegate(true, posts), UiStep(posts), PointerInput(p, Down, true, posts);
    RunFive(shape, bind, ui, ui, down, ui);
    assert Orphaning(p, posts)[..5] == [bind, ui, ui, down, ui];
    BoundFirst(shape, posts);
    TouchedNext(shape, Bind(Initial(shape, true), true, posts), p, posts);
  }

  lemma PhasesOfThree(a: Delivery, b: Delivery, p: nat)
    requires !a.call.Pointer? && !b.call.Pointer?
    ensures Phases([a, b, Delivery(1, Pointer(p, Down))], 1, p) == [Down]
  {
    assert [a, b, Delivery(1, Pointer(p, Down))][..2] == [a, b] && [a, b][..1] == [a] && [a][..0] == [];
    assert Phases([], 1, p) == [] && Phases([a], 1, p) == [] && Phases([a, b], 1, p) == [];
  }

  lemma Orphaned(shape: Shape, p: nat, posts: Posts)
    requires posts.ui.Accepted?
    ensures var w := Run(shape, true, Orphaning(p, posts)); Parted(w, 1) && Phases(w.delivered, 1, p) == [Down]
  {
    var first := Orphaning(p, posts)[..5];
    Touched(shape, p, posts);
    PhasesOfThree(Delivery(1, Created(Metrics(shape, 1))), Delivery(1, VisibilityChanged(true)), p);
    assert Orphaning(p, posts) == first + [BindDelegate(true, posts)];
    RunSnoc(shape, true, first, BindDelegate(true, posts));
  }

  /** The stream of the first delegate is never closed, whatever follows: its `p` stays down past a shutdown. */
  lemma OrphanedStream(shape: Shape, p: nat, posts: Posts, more: seq<Event>)
    requires posts.ui.Accepted?
    ensures var phases := Phases(Run(shape, true, Orphaning(p, posts) + more).delivered, 1, p);
            phases == [Down] && !Closed(phases)
  {
    Orphaned(shape, p, posts);
    PartedStreams(shape, true, Orphaning(p, posts), more, 1, p);
  }
}
