/**
 What a delegate is told over whole runs (src/host.cpp): everything follows from the events since it was bound,
 up to the event that stops the window.
 */
module WindowReports {
  import opened Common
  import opened WindowProtocol
  import opened WindowRuns
  import opened WindowGuarantees
  import opened WindowStreams

  // ---------------------------------------------------------------- facts in every run

  function FirstFacts(shape: Shape, visible: bool): Facts {
    Facts(ShapeValid, shape, 1, visible, false, Available)
  }

  /** While the window runs, it is what the events made of it. */
  ghost predicate Knows(w: Window, e: Event, v: Window) {
    v.running ==> w.running && FactsOf(v) == Learn(FactsOf(w), e)
  }

  lemma ShutdownStops(w: Window, post: Post)
    ensures !Shutdown(w, post).running
  {
  }

  lemma FinishKnows(w: Window, e: Event, x: Window, cancel: bool, generation: Option<nat>, posts: Posts)
    requires Knows(w, e, x)
    ensures Knows(w, e, Finish(x, cancel, generation, posts))
  {
    var wanted := cancel || generation.Some?;
    var sent := if wanted then x.(control := x.control + [ControlTask(cancel, generation)]) else x;
    ShutdownStops(x, posts.shutdown);
    ShutdownStops(sent.(frame := sent.frame.(exhausted := false)), posts.shutdown);
  }

  lemma BindKnows(w: Window, alive: bool, posts: Posts)
    ensures Knows(w, BindDelegate(alive, posts), Bind(w, alive, posts))
  {
    ShutdownStops(w.(delegate := w.delegate + 1, alive := alive, activePointers := {}), posts.shutdown);
  }

  lemma RequestKnows(w: Window, posts: Posts)
    ensures Knows(w, RequestsFrame(posts), RequestFrame(w, posts))
  {
    var demanded := w.(frame := w.frame.(demand := true));
    FinishKnows(w, RequestsFrame(posts), Arm(demanded), false, ArmedGeneration(demanded), posts);
  }

  lemma ChangeKnows(w: Window, e: Event, metrics: Metrics, posts: Posts)
    requires w.running && FactsOf(w.(metrics := metrics)) == Learn(FactsOf(w), e)
    ensures Knows(w, e, ChangeMetrics(w, metrics, posts))
  {
    var changed := Invalidate(w.(metrics := metrics));
    match posts.ui
    case Refused => ShutdownStops(Arm(changed), posts.shutdown);
    case Accepted =>
      FinishKnows(w, e, Arm(changed).(ui := w.ui + [Invoke(w.delegate, MetricsChanged(metrics), false)]),
                  w.frame.armed, ArmedGeneration(changed), posts);
  }

  lemma MetricsKnow(w: Window, shape: Shape, posts: Posts)
    ensures Knows(w, MetricsEvent(shape, posts), SetMetrics(w, shape, posts))
  {
    if w.running && w.metrics.shape != shape && w.metrics.generation != MAX_U64 && ShapeValid(shape) {
      ChangeKnows(w, MetricsEvent(shape, posts), Metrics(shape, w.metrics.generation + 1), posts);
    }
  }

  lemma ShowKnows(w: Window, posts: Posts)
    requires w.running && !w.visible
    ensures Knows(w, VisibleEvent(true, posts), SetVisible(w, true, posts))
  {
    var shown := w.(visible := true);
    ShutdownStops(Arm(shown), posts.shutdown);
    FinishKnows(w, VisibleEvent(true, posts),
                Arm(shown).(ui := w.ui + [Invoke(w.delegate, VisibilityChanged(true), false)]),
                false, ArmedGeneration(shown), posts);
  }

  lemma HideKnows(w: Window, posts: Posts)
    requires w.running && w.visible
    ensures Knows(w, VisibleEvent(false, posts), SetVisible(w, false, posts))
  {
    var hidden := Invalidate(w.(visible := false, focused := false));
    ShutdownStops(hidden, posts.shutdown);
    FinishKnows(w, VisibleEvent(false, posts),
                hidden.(activePointers := {},
                        ui := w.ui + Cancels(w.delegate, Sorted(w.activePointers), false)
                              + (if w.focused then [Invoke(w.delegate, FocusChanged(false), false)] else [])
                              + [Invoke(w.delegate, VisibilityChanged(false), false)]),
                w.frame.armed, None, posts);
  }

  lemma VisibleKnows(w: Window, visible: bool, posts: Posts)
    ensures Knows(w, VisibleEvent(visible, posts), SetVisible(w, visible, posts))
  {
    if w.running && w.visible != visible { if visible { ShowKnows(w, posts); } else { HideKnows(w, posts); } }
  }

  lemma FocusKnows(w: Window, focused: bool, posts: Posts)
    ensures Knows(w, FocusEvent(focused, posts), SetFocused(w, focused, posts))
  {
    ShutdownStops(w.(focused := focused), posts.shutdown);
  }

  lemma PulseKnows(w: Window, timestamp: int, generation: nat, posts: Posts)
    ensures Knows(w, PulseEvent(timestamp, generation, posts), FramePulse(w, timestamp, generation, posts))
  {
    ShutdownStops(w.(frame := w.frame.(armed := false, delivering := false)), posts.shutdown);
    ShutdownStops(w.(frame := TakePulse(w.frame, timestamp)), posts.shutdown);
  }

  lemma TellKnows(w: Window, e: Event, next: Window, cancel: bool, generation: Option<nat>, posts: Posts)
    requires Knows(w, e, next)
    ensures Knows(w, e, TellSurface(w, next, cancel, generation, posts))
  {
    ShutdownStops(next, posts.shutdown);
    FinishKnows(w, e, next.(ui := w.ui + SurfaceItems(w, next)), cancel, generation, posts);
  }

  lemma SurfaceKnows(w: Window, surface: Surface, posts: Posts)
    ensures Knows(w, SurfaceEvent(surface, posts), SetSurface(w, surface, posts))
  {
    var e := SurfaceEvent(surface, posts);
    if w.running && w.surface != surface {
      ShutdownStops(w, posts.shutdown);
      var metrics := if Renews(surface) then w.metrics.(generation := w.metrics.generation + 1) else w.metrics;
      var moved := w.(surface := surface, metrics := metrics);
      TellKnows(w, e, Arm(moved), false, ArmedGeneration(moved), posts);
      TellKnows(w, e, Invalidate(moved), w.frame.armed, None, posts);
    }
  }

  lemma PlainKnows(w: Window, e: Event)
    requires e.PointerInput? || e.OtherEvent? || e.ShutdownEvent? || e.UnbindDelegate? || e.DelegateDies?
             || e.ControlStep?
    ensures Knows(w, e, Step(w, e))
  {
  }

  lemma UiKnows(w: Window, posts: Posts)
    ensures Knows(w, UiStep(posts), RunUi(w, posts))
  {
    if w.ui != [] && w.ui[0].FrameDone? {
      var idle := w.(ui := w.ui[1..], frame := w.frame.(delivering := false));
      FinishKnows(w, UiStep(posts), Arm(idle), false, ArmedGeneration(idle), posts);
    }
  }

  lemma StepKnows(w: Window, e: Event)
    ensures Knows(w, e, Step(w, e))
  {
    match e
    case BindDelegate(alive, posts) => BindKnows(w, alive, posts);
    case RequestsFrame(posts) => RequestKnows(w, posts);
    case MetricsEvent(shape, posts) => MetricsKnow(w, shape, posts);
    case VisibleEvent(visible, posts) => VisibleKnows(w, visible, posts);
    case FocusEvent(focused, posts) => FocusKnows(w, focused, posts);
    case PulseEvent(timestamp, generation, posts) => PulseKnows(w, timestamp, generation, posts);
    case SurfaceEvent(surface, posts) => SurfaceKnows(w, surface, posts);
    case UiStep(posts) => UiKnows(w, posts);
    case _ => PlainKnows(w, e);
  }

  /** Metrics, visibility, focus and surface of a running window are what the events say. */
  lemma {:induction false} FactsRun(shape: Shape, visible: bool, events: seq<Event>)
    requires Run(shape, visible, events).running
    ensures FactsOf(Run(shape, visible, events)) == Learnt(FirstFacts(shape, visible), events)
  {
    if events != [] {
      var front := events[..|events| - 1];
      StepKnows(Run(shape, visible, front), events[|events| - 1]);
      FactsRun(shape, visible, front);
    }
  }

  // ---------------------------------------------------------------- what stops a window

  predicate AllAccepted(posts: Posts) {
    posts.ui.Accepted? && posts.control.Accepted?
  }

  /** No shutdown is asked for and no post is refused. */
  predicate Smooth(e: Event) {
    match e
    case ShutdownEvent(_) => false
    case BindDelegate(_, posts) => posts.ui.Accepted?
    case RequestsFrame(posts) => AllAccepted(posts)
    case MetricsEvent(_, posts) => AllAccepted(posts)
    case VisibleEvent(_, posts) => AllAccepted(posts)
    case FocusEvent(_, posts) => posts.ui.Accepted?
    case PulseEvent(_, _, posts) => posts.ui.Accepted?
    case PointerInput(_, _, _, posts) => posts.ui.Accepted?
    case SurfaceEvent(_, posts) => AllAccepted(posts)
    case OtherEvent(posts) => posts.ui.Accepted?
    case UiStep(posts) => AllAccepted(posts)
    case _ => true
  }

  /** No counter is spent. */
  predicate CountersLeft(w: Window) {
    w.metrics.generation < MAX_U64 && w.frame.generation + 2 <= MAX_U64 && w.frame.nextSequence < MAX_U64
  }

  lemma FinishStays(x: Window, cancel: bool, generation: Option<nat>, posts: Posts)
    requires x.running && AllAccepted(posts) && !x.frame.exhausted
    ensures Finish(x, cancel, generation, posts).running
  {
  }

  lemma TellStays(w: Window, next: Window, cancel: bool, generation: Option<nat>, posts: Posts)
    requires next.running && AllAccepted(posts) && !next.frame.exhausted
    ensures TellSurface(w, next, cancel, generation, posts).running
  {
    FinishStays(next.(ui := w.ui + SurfaceItems(w, next)), cancel, generation, posts);
  }

  lemma SurfaceStays(w: Window, surface: Surface, posts: Posts)
    requires w.running && !w.frame.exhausted && CountersLeft(w) && AllAccepted(posts) && w.surface != surface
    ensures SetSurface(w, surface, posts).running
  {
    var metrics := if Renews(surface) then w.metrics.(generation := w.metrics.generation + 1) else w.metrics;
    var moved := w.(surface := surface, metrics := metrics);
    TellStays(w, Arm(moved), false, ArmedGeneration(moved), posts);
    TellStays(w, Invalidate(moved), w.frame.armed, None, posts);
  }

  lemma MetricsStay(w: Window, metrics: Metrics, posts: Posts)
    requires w.running && !w.frame.exhausted && CountersLeft(w) && AllAccepted(posts)
    ensures ChangeMetrics(w, metrics, posts).running
  {
    var changed := Invalidate(w.(metrics := metrics));
    FinishStays(Arm(changed).(ui := w.ui + [Invoke(w.delegate, MetricsChanged(metrics), false)]),
                w.frame.armed, ArmedGeneration(changed), posts);
  }

  lemma VisibleStays(w: Window, visible: bool, posts: Posts)
    requires w.running && !w.frame.exhausted && CountersLeft(w) && AllAccepted(posts)
    ensures SetVisible(w, visible, posts).running
  {
  }

  lemma RequestStays(w: Window, posts: Posts)
    requires w.running && !w.frame.exhausted && CountersLeft(w) && AllAccepted(posts)
    ensures RequestFrame(w, posts).running
  {
    var demanded := w.(frame := w.frame.(demand := true));
    FinishStays(Arm(demanded), false, ArmedGeneration(demanded), posts);
  }

  lemma CompleteStays(w: Window, posts: Posts)
    requires w.running && !w.frame.exhausted && CountersLeft(w) && AllAccepted(posts)
    ensures CompleteFrame(w, posts).running
  {
    var idle := w.(frame := w.frame.(delivering := false));
    FinishStays(Arm(idle), false, ArmedGeneration(idle), posts);
  }

  lemma UiStays(w: Window, posts: Posts)
    requires w.running && !w.frame.exhausted && CountersLeft(w) && AllAccepted(posts)
    ensures RunUi(w, posts).running
  {
    if w.ui != [] && w.ui[0].FrameDone? { CompleteStays(w.(ui := w.ui[1..]), posts); }
  }

  lemma PlainStays(w: Window, e: Event)
    requires w.running && CountersLeft(w) && Smooth(e)
    requires e.BindDelegate? || e.UnbindDelegate? || e.DelegateDies? || e.FocusEvent? || e.PulseEvent?
             || e.PointerInput? || e.OtherEvent? || e.ControlStep?
    ensures Step(w, e).running
  {
  }

  /** A running window stops only by shutdown, a refused post or a spent counter. */
  lemma StopsOnly(shape: Shape, visible: bool, events: seq<Event>, e: Event)
    requires Run(shape, visible, events).running && !Run(shape, visible, events + [e]).running
    ensures !Smooth(e) || !CountersLeft(Run(shape, visible, events))
  {
    var w := Run(shape, visible, events);
    RunSnoc(shape, visible, events, e);
    RunOk(shape, visible, events);
    if Smooth(e) && CountersLeft(w) {
      match e
      case RequestsFrame(posts) => RequestStays(w, posts);
      case MetricsEvent(shape, posts) => MetricsStay(w, Metrics(shape, w.metrics.generation + 1), posts);
      case VisibleEvent(visible, posts) => VisibleStays(w, visible, posts);
      case SurfaceEvent(surface, posts) => if w.surface != surface { SurfaceStays(w, surface, posts); }
      case UiStep(posts) => UiStays(w, posts);
      case _ => PlainStays(w, e);
    }
  }

  /** Unbinding the current delegate, or binding another one, ends what is delivered to it. */
  lemma PartingParts(w: Window, g: nat, posts: Posts)
    requires w.delegate == g
    ensures g != 0 ==> Parted(Unbind(w, g), g)
    ensures w.running && g < MAX_U64 && posts.ui.Accepted? ==> Parted(Bind(w, true, posts), g)
  {
  }

  // ---------------------------------------------------------------- a bound delegate

  /** A later window in which `g` is still bound had it bound before. */
  lemma BoundBefore(w: Window, e: Event, g: nat)
    requires g <= w.delegate && StaysBound(Step(w, e), g)
    ensures StaysBound(w, g)
  {
    if e.UiStep? {
      if w.ui != [] && w.ui[0].FrameDone? { CompleteKeeps(w.(ui := w.ui[1..]), e.posts); }
    } else {
      EventKeeps(w, e);
    }
  }

  lemma DelegateGrows(w: Window, e: Event)
    ensures w.delegate <= Step(w, e).delegate
  {
    if e.UiStep? {
      if w.ui != [] && w.ui[0].FrameDone? { CompleteKeeps(w.(ui := w.ui[1..]), e.posts); }
    } else {
      EventKeeps(w, e);
    }
  }

  /** A stopped window only works off its queue. */
  lemma StoppedHeeds(w: Window, e: Event)
    requires Inv(w) && !w.running && w.alive
    ensures !Step(w, e).running
    ensures StaysBound(Step(w, e), w.delegate) ==> Calls(Step(w, e), w.delegate) == Calls(w, w.delegate)
  {
    StepKnows(w, e);
    match e
    case UiStep(posts) => StoppedUi(w, posts);
    case BindDelegate(alive, posts) =>
    case _ => StoppedIgnores(w, e);
  }

  lemma StoppedUi(w: Window, posts: Posts)
    requires Inv(w) && !w.running && w.alive
    ensures StaysBound(RunUi(w, posts), w.delegate) ==> Calls(RunUi(w, posts), w.delegate) == Calls(w, w.delegate)
  {
    if w.ui != [] {
      match w.ui[0]
      case Invoke(_, _, _) => InvokeHeard(w, posts);
      case FrameCall(_, _) => FrameHeard(w, posts);
      case FrameDone => CompleteStopped(w.(ui := w.ui[1..]), posts);
      case ShutdownDone(_) =>
    }
  }

  lemma StoppedIgnores(w: Window, e: Event)
    requires !w.running && !e.UiStep?
    ensures var v := Step(w, e); v.ui == w.ui && v.delivered == w.delivered
  {
    match e
    case RequestsFrame(posts) =>
    case _ =>
  }

  lemma {:induction false} NothingReceived(log: seq<Delivery>, g: nat)
    requires forall d | d in log :: d.delegate < g
    ensures Received(log, g) == []
  {
    if log != [] {
      assert log[|log| - 1] in log;
      NothingReceived(log[..|log| - 1], g);
    }
  }

  lemma {:induction false} NothingQueued(ui: seq<UiItem>, g: nat)
    requires forall i | i in ui :: i.Invoke? ==> i.delegate < g
    ensures Queued(ui, g) == []
  {
    if ui != [] {
      assert ui[0] in ui;
      NothingQueued(ui[1..], g);
    }
  }

  /** What a delegate is told when it is bound. */
  function Opening(f: Facts): seq<Call> {
    [Created(Metrics(f.shape, f.generation))] + if f.visible then [VisibilityChanged(true)] else []
  }

  lemma BindTells(w: Window, posts: Posts)
    requires Inv(w) && w.running && w.delegate < MAX_U64 && posts.ui.Accepted?
    ensures var v := Bind(w, true, posts);
            && v.running && v.alive && v.delegate == w.delegate + 1 && v.activePointers == {}
            && FactsOf(v) == FactsOf(w) && Calls(v, v.delegate) == Opening(FactsOf(w))
  {
    var g, v := w.delegate + 1, Bind(w, true, posts);
    forall i | i in w.ui && i.Invoke? ensures i.delegate < g { assert ItemOk(i, w.delegate); }
    NothingReceived(w.delivered, g);
    NothingQueued(w.ui, g);
    assert v.ui == w.ui + Invokes(g, Opening(FactsOf(w)), false);
    QueuedConcat(w.ui, Invokes(g, Opening(FactsOf(w)), false), g);
    QueuedInvokes(g, Opening(FactsOf(w)), false);
  }

  /** The run up to a binding that is taken, and beyond. */
  datatype Session = Session(shape: Shape, visible: bool, before: seq<Event>, posts: Posts)

  ghost function At(s: Session, since: seq<Event>): Window {
    Run(s.shape, s.visible, s.before + [BindDelegate(true, s.posts)] + since)
  }

  ghost function Delegate(s: Session): nat {
    Run(s.shape, s.visible, s.before).delegate + 1
  }

  /** What is known when the delegate is bound. */
  function Base0(s: Session): Facts {
    Learnt(FirstFacts(s.shape, s.visible), s.before)
  }

  ghost predicate Binds(s: Session) {
    var w := Run(s.shape, s.visible, s.before);
    w.running && w.delegate < MAX_U64 && s.posts.ui.Accepted?
  }

  lemma AtStart(s: Session)
    ensures At(s, []) == Bind(Run(s.shape, s.visible, s.before), true, s.posts)
  {
    assert s.before + [BindDelegate(true, s.posts)] + [] == s.before + [BindDelegate(true, s.posts)];
    RunSnoc(s.shape, s.visible, s.before, BindDelegate(true, s.posts));
  }

  lemma AtNext(s: Session, since: seq<Event>)
    requires since != []
    ensures At(s, since) == Step(At(s, since[..|since| - 1]), since[|since| - 1])
  {
    var front, e := since[..|since| - 1], since[|since| - 1];
    assert s.before + [BindDelegate(true, s.posts)] + since == s.before + [BindDelegate(true, s.posts)] + front + [e];
    RunSnoc(s.shape, s.visible, s.before + [BindDelegate(true, s.posts)] + front, e);
  }

  lemma {:induction false} DelegateSince(s: Session, since: seq<Event>)
    requires Binds(s)
    ensures Delegate(s) <= At(s, since).delegate && Inv(At(s, since))
  {
    RunOk(s.shape, s.visible, s.before + [BindDelegate(true, s.posts)] + since);
    if since == [] {
      AtStart(s);
    } else {
      AtNext(s, since);
      DelegateSince(s, since[..|since| - 1]);
      DelegateGrows(At(s, since[..|since| - 1]), since[|since| - 1]);
    }
  }

  /** `g` has been told what the events say, and the window is what they made of it. */
  ghost predicate FollowsAt(w: Window, g: nat, f: Facts, since: seq<Event>) {
    && Calls(w, g) == Opening(f) + Script(f, since)
    && FactsOf(w) == Learnt(f, since) && w.activePointers == DownSince(f, since)
  }

  /** As long as the delegate is bound and the window runs, it is told the script of the events. */
  ghost predicate Follows(s: Session, since: seq<Event>) {
    FollowsAt(At(s, since), Delegate(s), Base0(s), since)
  }

  lemma FollowsEmpty(w: Window, g: nat, f: Facts)
    requires Calls(w, g) == Opening(f) && FactsOf(w) == f && w.activePointers == {}
    ensures FollowsAt(w, g, f, [])
  {
    assert Opening(f) + [] == Opening(f);
  }

  lemma BindFollows(w: Window, posts: Posts)
    requires Inv(w) && w.running && w.delegate < MAX_U64 && posts.ui.Accepted?
    ensures FollowsAt(Bind(w, true, posts), w.delegate + 1, FactsOf(w), []) && Bind(w, true, posts).running
  {
    BindTells(w, posts);
    FollowsEmpty(Bind(w, true, posts), w.delegate + 1, FactsOf(w));
  }

  lemma BaseIs(s: Session)
    requires Binds(s)
    ensures Base0(s) == FactsOf(Run(s.shape, s.visible, s.before)) && Inv(Run(s.shape, s.visible, s.before))
  {
    RunOk(s.shape, s.visible, s.before);
    FactsRun(s.shape, s.visible, s.before);
  }

  lemma StartIs(s: Session, w: Window)
    requires Binds(s) && w == Run(s.shape, s.visible, s.before)
    ensures At(s, []) == Bind(w, true, s.posts) && Delegate(s) == w.delegate + 1 && Base0(s) == FactsOf(w)
  {
    AtStart(s);
    BaseIs(s);
  }

  lemma FollowsStart(s: Session)
    requires Binds(s)
    ensures Follows(s, []) && At(s, []).running
  {
    var w := Run(s.shape, s.visible, s.before);
    RunOk(s.shape, s.visible, s.before);
    StartIs(s, w);
    StartFollows(s, w);
  }

  lemma StartFollows(s: Session, w: Window)
    requires Inv(w) && w.running && w.delegate < MAX_U64 && s.posts.ui.Accepted?
    requires At(s, []) == Bind(w, true, s.posts) && Delegate(s) == w.delegate + 1 && Base0(s) == FactsOf(w)
    ensures Follows(s, []) && At(s, []).running
  {
    BindFollows(w, s.posts);
  }

  lemma FollowsNext(s: Session, since: seq<Event>)
    requires Binds(s) && since != [] && Follows(s, since[..|since| - 1])
    requires StaysBound(At(s, since[..|since| - 1]), Delegate(s))
    requires StaysBound(At(s, since), Delegate(s)) && At(s, since).running
    ensures Follows(s, since)
  {
    var front, e, f := since[..|since| - 1], since[|since| - 1], Base0(s);
    var w := At(s, front);
    AtNext(s, since);
    DelegateSince(s, front);
    StepKnows(w, e);
    StepHeeds(w, e);
    Associate(Opening(f), Script(f, front), Notices(Learnt(f, front), DownSince(f, front), e));
  }

  lemma {:induction false} HeardWhileRunning(s: Session, since: seq<Event>)
    requires Binds(s) && At(s, since).running && StaysBound(At(s, since), Delegate(s))
    ensures Follows(s, since)
  {
    if since == [] {
      FollowsStart(s);
    } else {
      var front, e := since[..|since| - 1], since[|since| - 1];
      AtNext(s, since);
      DelegateSince(s, front);
      BoundBefore(At(s, front), e, Delegate(s));
      StepKnows(At(s, front), e);
      HeardWhileRunning(s, front);
      FollowsNext(s, since);
    }
  }

  /** Event number `k` stopped the window, and the delegate has been told everything. */
  ghost predicate Ended(s: Session, since: seq<Event>, k: nat) {
    && k < |since| && At(s, since[..k]).running && !At(s, since[..k + 1]).running
    && var f := Base0(s);
       Calls(At(s, since), Delegate(s))
       == Opening(f) + Script(f, since[..k]) + Farewell(Learnt(f, since[..k]), DownSince(f, since[..k]), since[k])
  }

  lemma EndsNow(s: Session, since: seq<Event>)
    requires Binds(s) && since != [] && StaysBound(At(s, since), Delegate(s)) && !At(s, since).running
    requires var w := At(s, since[..|since| - 1]); w.running && StaysBound(w, Delegate(s))
    ensures Ended(s, since, |since| - 1)
  {
    var front := since[..|since| - 1];
    AtNext(s, since);
    DelegateSince(s, front);
    HeardWhileRunning(s, front);
    StepHeeds(At(s, front), since[|since| - 1]);
    assert since[..|since|] == since;
  }

  lemma EndedBefore(s: Session, since: seq<Event>, k: nat)
    requires Binds(s) && since != [] && StaysBound(At(s, since), Delegate(s)) && Ended(s, since[..|since| - 1], k)
    requires var w := At(s, since[..|since| - 1]); !w.running && StaysBound(w, Delegate(s))
    ensures Ended(s, since, k)
  {
    var front := since[..|since| - 1];
    AtNext(s, since);
    DelegateSince(s, front);
    StoppedHeeds(At(s, front), since[|since| - 1]);
    assert front[..k] == since[..k] && front[..k + 1] == since[..k + 1] && front[k] == since[k];
  }

  lemma BoundUntil(s: Session, since: seq<Event>)
    requires Binds(s) && since != [] && StaysBound(At(s, since), Delegate(s))
    ensures StaysBound(At(s, since[..|since| - 1]), Delegate(s))
  {
    AtNext(s, since);
    DelegateSince(s, since[..|since| - 1]);
    BoundBefore(At(s, since[..|since| - 1]), since[|since| - 1], Delegate(s));
  }

  /** A delegate that is still bound after the window has stopped was told the script and the farewell. */
  lemma {:induction false} HeardAtTheEnd(s: Session, since: seq<Event>) returns (k: nat)
    requires Binds(s) && !At(s, since).running && StaysBound(At(s, since), Delegate(s))
    ensures Ended(s, since, k)
  {
    FollowsStart(s);
    assert since != [];
    BoundUntil(s, since);
    if At(s, since[..|since| - 1]).running {
      k := |since| - 1;
      EndsNow(s, since);
    } else {
      k := HeardAtTheEnd(s, since[..|since| - 1]);
      EndedBefore(s, since, k);
    }
  }
}
