/**
 What a delegate is told, stated on the events that reach the window (src/host.cpp): every callback that a
 bound delegate has received or will receive, in order, follows from the events since it was bound.
 */
module WindowStreams {
  import opened Common
  import opened WindowProtocol
  import opened WindowRuns
  import opened WindowGuarantees

  // ---------------------------------------------------------------- the events, read on their own

  /**
   What a sequence of events makes of the window, as long as it runs.  `takes` says which shapes are taken
   over at all; for a window that is ShapeValid.
   */
  datatype Facts = Facts(
    takes: Shape -> bool, shape: Shape, generation: nat, visible: bool, focused: bool, surface: Surface)

  predicate Renews(surface: Surface) {
    surface.OutOfDate? || surface.Available?
  }

  function Learn(f: Facts, e: Event): Facts {
    match e
    case MetricsEvent(shape, _) =>
      if f.shape == shape || f.generation == MAX_U64 || !f.takes(shape) then f
      else f.(shape := shape, generation := f.generation + 1)
    case VisibleEvent(visible, _) => f.(visible := visible, focused := f.focused && (visible || !f.visible))
    case FocusEvent(focused, _) => if focused && !f.visible then f else f.(focused := focused)
    case SurfaceEvent(surface, _) =>
      if surface == f.surface then f
      else f.(surface := surface, generation := if Renews(surface) then f.generation + 1 else f.generation)
    case _ => f
  }

  function Learnt(f: Facts, events: seq<Event>): Facts {
    if events == [] then f else Learn(Learnt(f, events[..|events| - 1]), events[|events| - 1])
  }

  /** The pointers that are down for the delegate. */
  function Touch(f: Facts, down: set<nat>, e: Event): set<nat> {
    match e
    case PointerInput(id, phase, finite, _) =>
      if !f.visible || !finite || (phase.Down? <==> id in down) then down
      else if phase.Down? then down + {id} else if phase.Move? then down else down - {id}
    case VisibleEvent(false, _) => if f.visible then {} else down
    case FocusEvent(false, _) => if f.focused then {} else down
    case _ => down
  }

  function DownSince(f: Facts, events: seq<Event>): set<nat> {
    if events == [] then {}
    else
      var front, e := events[..|events| - 1], events[|events| - 1];
      Touch(Learnt(f, front), DownSince(f, front), e)
  }

  function CancelCalls(pointers: seq<nat>): seq<Call> {
    seq(|pointers|, i requires 0 <= i < |pointers| => Pointer(pointers[i], Cancel))
  }

  /** The callbacks an event gives rise to: one for each fact that changed, after the cancels it implies. */
  ghost function Notices(f: Facts, down: set<nat>, e: Event): seq<Call> {
    var after := Learn(f, e);
    match e
    case MetricsEvent(_, _) => if after == f then [] else [MetricsChanged(Metrics(after.shape, after.generation))]
    case VisibleEvent(visible, _) =>
      if visible == f.visible then []
      else
        (if visible then [] else CancelCalls(Sorted(down)))
        + (if after.focused == f.focused then [] else [FocusChanged(after.focused)])
        + [VisibilityChanged(visible)]
    case FocusEvent(_, _) =>
      if after == f then []
      else (if after.focused then [] else CancelCalls(Sorted(down))) + [FocusChanged(after.focused)]
    case SurfaceEvent(_, _) =>
      if after == f then []
      else
        (if after.generation == f.generation then [] else [MetricsChanged(Metrics(after.shape, after.generation))])
        + [SurfaceChanged(after.surface, after.generation)]
    case PointerInput(id, phase, finite, _) =>
      if f.visible && finite && (phase.Down? <==> id !in down) then [Pointer(id, phase)] else []
    case OtherEvent(_) => [Other]
    case _ => []
  }

  ghost function Script(f: Facts, events: seq<Event>): seq<Call> {
    if events == [] then []
    else
      var front, e := events[..|events| - 1], events[|events| - 1];
      Script(f, front) + Notices(Learnt(f, front), DownSince(f, front), e)
  }

  /** An event that stops the window has been announced before, unless its own post was refused. */
  predicate Announced(f: Facts, e: Event) {
    match e
    case MetricsEvent(_, posts) => posts.ui.Accepted?
    case VisibleEvent(_, posts) => posts.ui.Accepted?
    case SurfaceEvent(surface, posts) => posts.ui.Accepted? && !(Renews(surface) && f.generation == MAX_U64)
    case _ => false
  }

  /** The callbacks of an event that stops the window: every pointer is closed, and the notice comes last. */
  ghost function Farewell(f: Facts, down: set<nat>, e: Event): seq<Call> {
    (if Announced(f, e) then Notices(f, down, e) + CancelCalls(Sorted(Touch(f, down, e)))
     else CancelCalls(Sorted(down)))
    + [ShuttingDown]
  }

  // ---------------------------------------------------------------- received and queued callbacks

  function Received(log: seq<Delivery>, g: nat): seq<Call> {
    if log == [] then []
    else
      var last := log[|log| - 1];
      Received(log[..|log| - 1], g) + if last.delegate == g && !last.call.FrameRequested? then [last.call] else []
  }

  function Queued(ui: seq<UiItem>, g: nat): seq<Call> {
    if ui == [] then []
    else (if ui[0].Invoke? && ui[0].delegate == g then [ui[0].call] else []) + Queued(ui[1..], g)
  }

  /** Everything but frames that `g` has been told or will be. */
  function Calls(w: Window, g: nat): seq<Call> {
    Received(w.delivered, g) + Queued(w.ui, g)
  }

  function Invokes(g: nat, calls: seq<Call>, always: bool): seq<UiItem> {
    seq(|calls|, i requires 0 <= i < |calls| => Invoke(g, calls[i], always))
  }

  lemma {:induction false} QueuedConcat(a: seq<UiItem>, b: seq<UiItem>, g: nat)
    ensures Queued(a + b, g) == Queued(a, g) + Queued(b, g)
  {
    if a == [] {
      EmptyPrefix(b);
    } else {
      assert (a + b)[1..] == a[1..] + b;
      QueuedConcat(a[1..], b, g);
      Associate(if a[0].Invoke? && a[0].delegate == g then [a[0].call] else [], Queued(a[1..], g), Queued(b, g));
    }
  }

  lemma {:induction false} QueuedInvokes(g: nat, calls: seq<Call>, always: bool)
    ensures Queued(Invokes(g, calls, always), g) == calls
  {
    if calls != [] {
      QueuedInvokes(g, calls[1..], always);
      assert Invokes(g, calls, always)[1..] == Invokes(g, calls[1..], always);
    }
  }

  lemma {:induction false} CancelsInvoke(g: nat, pointers: seq<nat>, always: bool)
    ensures Cancels(g, pointers, always) == Invokes(g, CancelCalls(pointers), always)
  {
    if pointers != [] {
      CancelsInvoke(g, pointers[1..], always);
      assert CancelCalls(pointers) == [Pointer(pointers[0], Cancel)] + CancelCalls(pointers[1..]);
    }
  }

  /** Queueing callbacks for the current delegate. */
  lemma Tells(w: Window, v: Window, calls: seq<Call>)
    requires v.delivered == w.delivered && v.ui == w.ui + Invokes(w.delegate, calls, false)
    ensures Calls(v, w.delegate) == Calls(w, w.delegate) + calls
  {
    QueuedConcat(w.ui, Invokes(w.delegate, calls, false), w.delegate);
    QueuedInvokes(w.delegate, calls, false);
  }

  function FactsOf(w: Window): Facts {
    Facts(ShapeValid, w.metrics.shape, w.metrics.generation, w.visible, w.focused, w.surface)
  }

  /** `g` is the delegate and is still there. */
  predicate StaysBound(w: Window, g: nat) {
    w.alive && w.delegate == g
  }

  /** A step from a running window, as the current delegate sees it. */
  ghost predicate Heeds(w: Window, e: Event, v: Window) {
    var g, f, down := w.delegate, FactsOf(w), w.activePointers;
    StaysBound(v, g) ==>
      if v.running then
        && Calls(v, g) == Calls(w, g) + Notices(f, down, e)
        && FactsOf(v) == Learn(f, e) && v.activePointers == Touch(f, down, e)
      else
        Calls(v, g) == Calls(w, g) + Farewell(f, down, e)
  }

  // ---------------------------------------------------------------- steps

  /** `x` has queued `said` and is about to be finished or shut down. */
  predicate Saying(w: Window, x: Window, said: seq<Call>) {
    && w.running && x.running && x.delegate == w.delegate && x.delivered == w.delivered
    && x.ui == w.ui + Invokes(w.delegate, said, false)
  }

  /** What is left of `ui` when the window shuts down behind it. */
  lemma FarewellQueued(ui: seq<UiItem>, g: nat, pointers: seq<nat>)
    ensures Queued(ui + Cancels(g, pointers, true) + [Invoke(g, ShuttingDown, true), ShutdownDone(g)], g)
            == Queued(ui, g) + (CancelCalls(pointers) + [ShuttingDown])
  {
    var cancels, notice, done := Cancels(g, pointers, true), [Invoke(g, ShuttingDown, true)], [ShutdownDone(g)];
    assert notice + done == [Invoke(g, ShuttingDown, true), ShutdownDone(g)];
    QueuedConcat(ui + cancels, notice + done, g);
    QueuedConcat(ui, cancels, g);
    QueuedConcat(notice, done, g);
    CancelsInvoke(g, pointers, true);
    QueuedInvokes(g, CancelCalls(pointers), true);
    assert notice == Invokes(g, [ShuttingDown], true);
    QueuedInvokes(g, [ShuttingDown], true);
    assert done[1..] == [];
    assert Queued(done, g) == [];
  }

  lemma Together(a: seq<Call>, b: seq<Call>, c: seq<Call>, d: seq<Call>)
    ensures a + (b + (c + d)) == a + b + (c + d) == a + (b + c + d)
  {
  }

  lemma ShutdownTells(w: Window, x: Window, said: seq<Call>, post: Post)
    requires Saying(w, x, said)
    ensures !Shutdown(x, post).running
    ensures StaysBound(Shutdown(x, post), w.delegate) ==>
              Calls(Shutdown(x, post), w.delegate)
              == Calls(w, w.delegate) + (said + CancelCalls(Sorted(x.activePointers)) + [ShuttingDown])
  {
    if post.Accepted? {
      var g, pointers := w.delegate, Sorted(x.activePointers);
      Tells(w, x, said);
      FarewellQueued(x.ui, g, pointers);
      Together(Received(x.delivered, g), Queued(x.ui, g), CancelCalls(pointers), [ShuttingDown]);
      Together(Calls(w, g), said, CancelCalls(pointers), [ShuttingDown]);
    }
  }

  lemma FinishTells(w: Window, x: Window, said: seq<Call>, cancel: bool, generation: Option<nat>, posts: Posts)
    requires Saying(w, x, said)
    ensures var v := Finish(x, cancel, generation, posts);
            if v.running then v == x.(control := v.control) && Calls(v, w.delegate) == Calls(w, w.delegate) + said
            else StaysBound(v, w.delegate) ==>
                   Calls(v, w.delegate)
                   == Calls(w, w.delegate) + (said + CancelCalls(Sorted(x.activePointers)) + [ShuttingDown])
  {
    var wanted := cancel || generation.Some?;
    var sent := if wanted then x.(control := x.control + [ControlTask(cancel, generation)]) else x;
    Tells(w, x, said);
    ShutdownTells(w, x, said, posts.shutdown);
    ShutdownTells(w, sent.(frame := sent.frame.(exhausted := false)), said, posts.shutdown);
  }

  lemma NothingSaid(w: Window, x: Window)
    requires w.running && x.running && x.delegate == w.delegate && x.delivered == w.delivered && x.ui == w.ui
    ensures Saying(w, x, [])
  {
    assert w.ui + Invokes(w.delegate, [], false) == w.ui;
  }

  /** The event's own post is refused: nothing is said but the farewell. */
  lemma RefusedHeeds(w: Window, e: Event, x: Window, post: Post)
    requires w.running && x.running && x.delegate == w.delegate && x.delivered == w.delivered && x.ui == w.ui
    requires x.activePointers == w.activePointers && !Announced(FactsOf(w), e)
    ensures Heeds(w, e, Shutdown(x, post))
  {
    NothingSaid(w, x);
    ShutdownTells(w, x, [], post);
    EmptyPrefix(CancelCalls(Sorted(w.activePointers)));
  }

  /** `x` has taken the event in and queued its notices. */
  ghost predicate Takes(w: Window, e: Event, x: Window) {
    var f, down := FactsOf(w), w.activePointers;
    && Saying(w, x, Notices(f, down, e)) && FactsOf(x) == Learn(f, e) && x.activePointers == Touch(f, down, e)
  }

  lemma FinishHeeds(w: Window, e: Event, x: Window, cancel: bool, generation: Option<nat>, posts: Posts)
    requires Takes(w, e, x)
    requires Announced(FactsOf(w), e) || (Notices(FactsOf(w), w.activePointers, e) == []
                                          && x.activePointers == w.activePointers)
    ensures Heeds(w, e, Finish(x, cancel, generation, posts))
  {
    var said := Notices(FactsOf(w), w.activePointers, e);
    FinishTells(w, x, said, cancel, generation, posts);
    EmptyPrefix(CancelCalls(Sorted(w.activePointers)));
  }

  /** A callback is queued and the window runs on. */
  lemma TakesHeeds(w: Window, e: Event, x: Window)
    requires Takes(w, e, x)
    ensures Heeds(w, e, x)
  {
    Tells(w, x, Notices(FactsOf(w), w.activePointers, e));
  }

  /** An event that changes nothing. */
  lemma IgnoredHeeds(w: Window, e: Event, x: Window)
    requires w.running && x.running && x.delegate == w.delegate && x.delivered == w.delivered && x.ui == w.ui
    requires var f, down := FactsOf(w), w.activePointers;
             Notices(f, down, e) == [] && FactsOf(x) == Learn(f, e) && x.activePointers == Touch(f, down, e)
    ensures Heeds(w, e, x)
  {
    NothingSaid(w, x);
    TakesHeeds(w, e, x);
  }

  lemma RequestHeeds(w: Window, posts: Posts)
    requires w.running
    ensures Heeds(w, RequestsFrame(posts), RequestFrame(w, posts))
  {
    var demanded := w.(frame := w.frame.(demand := true));
    NothingSaid(w, Arm(demanded));
    FinishHeeds(w, RequestsFrame(posts), Arm(demanded), false, ArmedGeneration(demanded), posts);
  }

  lemma OneInvoke(g: nat, call: Call)
    ensures Invokes(g, [call], false) == [Invoke(g, call, false)]
  {
  }

  lemma ChangeHeeds(w: Window, shape: Shape, posts: Posts)
    requires w.running && w.metrics.shape != shape && w.metrics.generation != MAX_U64 && ShapeValid(shape)
    ensures Heeds(w, MetricsEvent(shape, posts), ChangeMetrics(w, Metrics(shape, w.metrics.generation + 1), posts))
  {
    var e, metrics := MetricsEvent(shape, posts), Metrics(shape, w.metrics.generation + 1);
    var changed := Invalidate(w.(metrics := metrics));
    match posts.ui
    case Refused => RefusedHeeds(w, e, Arm(changed), posts.shutdown);
    case Accepted =>
      OneInvoke(w.delegate, MetricsChanged(metrics));
      FinishHeeds(w, e, Arm(changed).(ui := w.ui + [Invoke(w.delegate, MetricsChanged(metrics), false)]),
                  w.frame.armed, ArmedGeneration(changed), posts);
  }

  lemma MetricsHeed(w: Window, shape: Shape, posts: Posts)
    requires w.running
    ensures Heeds(w, MetricsEvent(shape, posts), SetMetrics(w, shape, posts))
  {
    if w.metrics.shape == shape || w.metrics.generation == MAX_U64 || !ShapeValid(shape) {
      IgnoredHeeds(w, MetricsEvent(shape, posts), w);
    } else {
      ChangeHeeds(w, shape, posts);
    }
  }

  lemma ShowHeeds(w: Window, posts: Posts)
    requires w.running && !w.visible
    ensures Heeds(w, VisibleEvent(true, posts), SetVisible(w, true, posts))
  {
    var e, shown := VisibleEvent(true, posts), w.(visible := true);
    match posts.ui
    case Refused => RefusedHeeds(w, e, Arm(shown), posts.shutdown);
    case Accepted =>
      OneInvoke(w.delegate, VisibilityChanged(true));
      FinishHeeds(w, e, Arm(shown).(ui := w.ui + [Invoke(w.delegate, VisibilityChanged(true), false)]),
                  false, ArmedGeneration(shown), posts);
  }

  /** The callbacks of hiding, as they are queued. */
  lemma HideInvokes(g: nat, pointers: seq<nat>, focused: bool)
    ensures Invokes(g, CancelCalls(pointers) + (if focused then [FocusChanged(false)] else [])
                       + [VisibilityChanged(false)], false)
            == Cancels(g, pointers, false) + (if focused then [Invoke(g, FocusChanged(false), false)] else [])
               + [Invoke(g, VisibilityChanged(false), false)]
  {
    CancelsInvoke(g, pointers, false);
  }

  lemma HideHeeds(w: Window, posts: Posts)
    requires w.running && w.visible
    ensures Heeds(w, VisibleEvent(false, posts), SetVisible(w, false, posts))
  {
    var e, hidden := VisibleEvent(false, posts), Invalidate(w.(visible := false, focused := false));
    match posts.ui
    case Refused => RefusedHeeds(w, e, hidden, posts.shutdown);
    case Accepted =>
      var pointers := Sorted(w.activePointers);
      var items := Cancels(w.delegate, pointers, false)
                   + (if w.focused then [Invoke(w.delegate, FocusChanged(false), false)] else [])
                   + [Invoke(w.delegate, VisibilityChanged(false), false)];
      HideInvokes(w.delegate, pointers, w.focused);
      var x := hidden.(activePointers := {}, ui := w.ui + items);
      assert x.ui == w.ui + Cancels(w.delegate, pointers, false)
                     + (if w.focused then [Invoke(w.delegate, FocusChanged(false), false)] else [])
                     + [Invoke(w.delegate, VisibilityChanged(false), false)];
      FinishHeeds(w, e, x, w.frame.armed, None, posts);
  }

  lemma VisibleHeeds(w: Window, visible: bool, posts: Posts)
    requires w.running
    ensures Heeds(w, VisibleEvent(visible, posts), SetVisible(w, visible, posts))
  {
    if w.visible == visible {
      IgnoredHeeds(w, VisibleEvent(visible, posts), w);
    } else if visible {
      ShowHeeds(w, posts);
    } else {
      HideHeeds(w, posts);
    }
  }

  lemma FocusInvokes(g: nat, pointers: seq<nat>, focused: bool)
    ensures Invokes(g, (if focused then [] else CancelCalls(pointers)) + [FocusChanged(focused)], false)
            == (if focused then [] else Cancels(g, pointers, false)) + [Invoke(g, FocusChanged(focused), false)]
  {
    CancelsInvoke(g, pointers, false);
  }

  lemma FocusHeeds(w: Window, focused: bool, posts: Posts)
    requires w.running
    ensures Heeds(w, FocusEvent(focused, posts), SetFocused(w, focused, posts))
  {
    var e, changed := FocusEvent(focused, posts), w.(focused := focused);
    if w.focused == focused || (focused && !w.visible) {
      IgnoredHeeds(w, e, w);
    } else {
      match posts.ui
      case Refused => RefusedHeeds(w, e, changed, posts.shutdown);
      case Accepted =>
        FocusInvokes(w.delegate, Sorted(w.activePointers), focused);
        Associate(w.ui, if focused then [] else Cancels(w.delegate, Sorted(w.activePointers), false),
                  [Invoke(w.delegate, FocusChanged(focused), false)]);
        TakesHeeds(w, e, SetFocused(w, focused, posts));
    }
  }

  lemma PulseHeeds(w: Window, timestamp: int, generation: nat, posts: Posts)
    requires w.running
    ensures Heeds(w, PulseEvent(timestamp, generation, posts), FramePulse(w, timestamp, generation, posts))
  {
    var e, v := PulseEvent(timestamp, generation, posts), FramePulse(w, timestamp, generation, posts);
    var request := FrameRequest(w.metrics, timestamp, w.frame.nextSequence);
    if v == w {
      IgnoredHeeds(w, e, w);
    } else if w.frame.nextSequence == MAX_U64 {
      RefusedHeeds(w, e, w.(frame := w.frame.(armed := false, delivering := false)), posts.shutdown);
    } else if posts.ui.Refused? {
      RefusedHeeds(w, e, w.(frame := TakePulse(w.frame, timestamp)), posts.shutdown);
    } else {
      FrameUnheard(w, v, request);
    }
  }

  /** A queued frame is not among the calls. */
  lemma FrameUnheard(w: Window, v: Window, request: FrameRequest)
    requires v.running && v.delivered == w.delivered && v.ui == w.ui + [FrameCall(w.delegate, request), FrameDone]
    ensures Calls(v, w.delegate) == Calls(w, w.delegate)
  {
    var items := [FrameCall(w.delegate, request), FrameDone];
    QueuedConcat(w.ui, items, w.delegate);
    assert items[1..] == [FrameDone] && [FrameDone][1..] == [];
    assert Queued([FrameDone], w.delegate) == [];
    assert Queued(items, w.delegate) == [];
  }

  lemma PointerHeeds(w: Window, id: nat, phase: Phase, finite: bool, posts: Posts)
    requires w.running
    ensures Heeds(w, PointerInput(id, phase, finite, posts), SendPointer(w, id, phase, finite, posts))
  {
    var e := PointerInput(id, phase, finite, posts);
    if !w.visible || !finite || !PointerAccepted(w, id, phase) {
      IgnoredHeeds(w, e, w);
    } else {
      match posts.ui
      case Refused => RefusedHeeds(w, e, w, posts.shutdown);
      case Accepted =>
        OneInvoke(w.delegate, Pointer(id, phase));
        TakesHeeds(w, e, SendPointer(w, id, phase, finite, posts));
    }
  }

  lemma NotifyHeeds(w: Window, posts: Posts)
    requires w.running
    ensures Heeds(w, OtherEvent(posts), Notify(w, posts))
  {
    match posts.ui
    case Refused => RefusedHeeds(w, OtherEvent(posts), w, posts.shutdown);
    case Accepted =>
      OneInvoke(w.delegate, Other);
      TakesHeeds(w, OtherEvent(posts), Notify(w, posts));
  }

  lemma SurfaceInvokes(w: Window, next: Window)
    ensures SurfaceItems(w, next)
            == Invokes(w.delegate,
                       (if next.metrics == w.metrics then [] else [MetricsChanged(next.metrics)])
                       + [SurfaceChanged(next.surface, next.metrics.generation)], false)
  {
  }

  lemma TellHeeds(w: Window, e: Event, next: Window, cancel: bool, generation: Option<nat>, posts: Posts)
    requires e == SurfaceEvent(next.surface, posts) && w.surface != next.surface
    requires w.running && next.running && next.delegate == w.delegate && next.delivered == w.delivered
             && next.ui == w.ui && next.activePointers == w.activePointers
    requires !(Renews(next.surface) && w.metrics.generation == MAX_U64) && FactsOf(next) == Learn(FactsOf(w), e)
    ensures Heeds(w, e, TellSurface(w, next, cancel, generation, posts))
  {
    match posts.ui
    case Refused => RefusedHeeds(w, e, next, posts.shutdown);
    case Accepted =>
      SurfaceInvokes(w, next);
      FinishHeeds(w, e, next.(ui := w.ui + SurfaceItems(w, next)), cancel, generation, posts);
  }

  lemma SurfaceHeeds(w: Window, surface: Surface, posts: Posts)
    requires w.running
    ensures Heeds(w, SurfaceEvent(surface, posts), SetSurface(w, surface, posts))
  {
    var e := SurfaceEvent(surface, posts);
    if w.surface == surface {
      IgnoredHeeds(w, e, w);
    } else if Renews(surface) && w.metrics.generation == MAX_U64 {
      RefusedHeeds(w, e, w, posts.shutdown);
    } else {
      var metrics := if Renews(surface) then w.metrics.(generation := w.metrics.generation + 1) else w.metrics;
      var moved := w.(surface := surface, metrics := metrics);
      if surface.Available? {
        TellHeeds(w, e, Arm(moved), false, ArmedGeneration(moved), posts);
      } else {
        TellHeeds(w, e, Invalidate(moved), w.frame.armed, None, posts);
      }
    }
  }

  // ---------------------------------------------------------------- the executors

  lemma ReceivedSnoc(log: seq<Delivery>, d: Delivery, g: nat)
    ensures Received(log + [d], g)
            == Received(log, g) + if d.delegate == g && !d.call.FrameRequested? then [d.call] else []
  {
    assert (log + [d])[..|log|] == log;
  }

  lemma InvokeShape(w: Window, posts: Posts)
    requires w.ui != [] && w.ui[0].Invoke?
    ensures var v, item := RunUi(w, posts), w.ui[0];
            && v.ui == w.ui[1..]
            && v.delivered == w.delivered + if Reaches(w, item.delegate, item.always)
                                            then [Delivery(item.delegate, item.call)] else []
  {
  }

  /** Nothing queued for a delegate that is still there is lost. */
  lemma StillDelivers(w: Window)
    requires Inv(w) && w.alive
    ensures w.running || w.deliverQueued
    ensures forall i | i in w.ui && i.Invoke? :: !i.call.FrameRequested?
  {
    forall i | i in w.ui && i.Invoke? ensures !i.call.FrameRequested? { assert ItemOk(i, w.delegate); }
  }

  /** Taking a callback off the queue delivers it to the current delegate. */
  lemma InvokeHeard(w: Window, posts: Posts)
    requires Inv(w) && w.alive && w.ui != [] && w.ui[0].Invoke?
    ensures Calls(RunUi(w, posts), w.delegate) == Calls(w, w.delegate)
  {
    StillDelivers(w);
    InvokeShape(w, posts);
    CallMoves(w.delivered, w.ui, w.delegate, w.delegate == w.ui[0].delegate);
  }

  lemma CallMoves(log: seq<Delivery>, ui: seq<UiItem>, g: nat, reaches: bool)
    requires ui != [] && ui[0].Invoke? && !ui[0].call.FrameRequested? && (reaches <==> ui[0].delegate == g)
    ensures Received(log + (if reaches then [Delivery(ui[0].delegate, ui[0].call)] else []), g) + Queued(ui[1..], g)
            == Received(log, g) + Queued(ui, g)
  {
    if reaches {
      ReceivedSnoc(log, Delivery(g, ui[0].call), g);
      Associate(Received(log, g), [ui[0].call], Queued(ui[1..], g));
    } else {
      assert log + [] == log && [] + Queued(ui[1..], g) == Queued(ui[1..], g);
    }
  }

  lemma FrameShape(w: Window, posts: Posts)
    requires w.ui != [] && w.ui[0].FrameCall?
    ensures var v, d := RunUi(w, posts), Delivery(w.ui[0].delegate, FrameRequested(w.ui[0].request));
            v.ui == w.ui[1..] && (v.delivered == w.delivered || v.delivered == w.delivered + [d])
  {
  }

  lemma FrameHeard(w: Window, posts: Posts)
    requires w.ui != [] && w.ui[0].FrameCall?
    ensures Calls(RunUi(w, posts), w.delegate) == Calls(w, w.delegate)
  {
    FrameShape(w, posts);
    ReceivedSnoc(w.delivered, Delivery(w.ui[0].delegate, FrameRequested(w.ui[0].request)), w.delegate);
  }

  /** The end of a frame task, taken off the queue. */
  lemma CompleteHeeds(w: Window, posts: Posts)
    requires w.running
    ensures Heeds(w, UiStep(posts), CompleteFrame(w, posts))
  {
    var idle := w.(frame := w.frame.(delivering := false));
    NothingSaid(w, Arm(idle));
    FinishHeeds(w, UiStep(posts), Arm(idle), false, ArmedGeneration(idle), posts);
  }

  lemma SameCalls(w: Window, popped: Window, e: Event, v: Window)
    requires popped == w.(ui := popped.ui) && Calls(popped, w.delegate) == Calls(w, w.delegate) && Heeds(popped, e, v)
    ensures Heeds(w, e, v)
  {
  }

  lemma DoneHeeds(w: Window, posts: Posts)
    requires w.running && w.ui != [] && w.ui[0].FrameDone?
    ensures Heeds(w, UiStep(posts), RunUi(w, posts))
  {
    var popped := w.(ui := w.ui[1..]);
    CompleteHeeds(popped, posts);
    SameCalls(w, popped, UiStep(posts), CompleteFrame(popped, posts));
  }

  /** The window runs on, and neither what is heard nor what is known has changed. */
  lemma QuietHeeds(w: Window, posts: Posts, v: Window)
    requires v.running && FactsOf(v) == FactsOf(w) && v.activePointers == w.activePointers
    requires Calls(v, w.delegate) == Calls(w, w.delegate)
    ensures Heeds(w, UiStep(posts), v)
  {
    assert Calls(w, w.delegate) + [] == Calls(w, w.delegate);
  }

  lemma CallShape(w: Window, posts: Posts)
    requires w.running && w.ui != [] && (w.ui[0].Invoke? || w.ui[0].FrameCall?)
    ensures var v := RunUi(w, posts); v.running && FactsOf(v) == FactsOf(w) && v.activePointers == w.activePointers
  {
  }

  lemma UiHeeds(w: Window, posts: Posts)
    requires Inv(w) && w.running && w.alive
    ensures Heeds(w, UiStep(posts), RunUi(w, posts))
  {
    if w.ui == [] {
      IgnoredHeeds(w, UiStep(posts), w);
    } else if w.ui[0].FrameDone? {
      DoneHeeds(w, posts);
    } else if w.ui[0].ShutdownDone? {
      DoneLast(w);
    } else {
      if w.ui[0].Invoke? { InvokeHeard(w, posts); } else { FrameHeard(w, posts); }
      CallShape(w, posts);
      QuietHeeds(w, posts, RunUi(w, posts));
    }
  }

  /** While the window runs no release is queued. */
  lemma DoneLast(w: Window)
    requires Inv(w) && w.running && w.ui != []
    ensures !w.ui[0].ShutdownDone?
  {
    assert w.ui[0] in w.ui && !ShutdownItem(w.ui[0]);
  }

  lemma ControlHeeds(w: Window, fails: bool)
    requires w.running
    ensures Heeds(w, ControlStep(fails), RunControl(w, fails))
  {
    IgnoredHeeds(w, ControlStep(fails), RunControl(w, fails));
  }

  /** The events that tell of a fact. */
  lemma ChangeHeeded(w: Window, e: Event)
    requires w.running && (e.MetricsEvent? || e.VisibleEvent? || e.FocusEvent? || e.SurfaceEvent?)
    ensures Heeds(w, e, Step(w, e))
  {
    match e
    case MetricsEvent(shape, posts) => MetricsHeed(w, shape, posts);
    case VisibleEvent(visible, posts) => VisibleHeeds(w, visible, posts);
    case FocusEvent(focused, posts) => FocusHeeds(w, focused, posts);
    case SurfaceEvent(surface, posts) => SurfaceHeeds(w, surface, posts);
  }

  lemma InputHeeded(w: Window, e: Event)
    requires w.running && (e.RequestsFrame? || e.PulseEvent? || e.PointerInput? || e.OtherEvent?)
    ensures Heeds(w, e, Step(w, e))
  {
    match e
    case RequestsFrame(posts) => RequestHeeds(w, posts);
    case PulseEvent(timestamp, generation, posts) => PulseHeeds(w, timestamp, generation, posts);
    case PointerInput(id, phase, finite, posts) => PointerHeeds(w, id, phase, finite, posts);
    case OtherEvent(posts) => NotifyHeeds(w, posts);
  }

  lemma DelegateHeeded(w: Window, e: Event)
    requires w.running && (e.BindDelegate? || e.UnbindDelegate? || e.DelegateDies? || e.ShutdownEvent?)
    ensures Heeds(w, e, Step(w, e))
  {
    match e
    case ShutdownEvent(post) => RefusedHeeds(w, e, w, post);
    case BindDelegate(alive, posts) => BindHeeds(w, alive, posts);
    case UnbindDelegate(delegate) => UnbindHeeds(w, delegate);
    case DelegateDies =>
  }

  /** One event, for a delegate that stays bound. */
  lemma StepHeeds(w: Window, e: Event)
    requires Inv(w) && w.running && w.alive
    ensures Heeds(w, e, Step(w, e))
  {
    if e.MetricsEvent? || e.VisibleEvent? || e.FocusEvent? || e.SurfaceEvent? {
      ChangeHeeded(w, e);
    } else if e.RequestsFrame? || e.PulseEvent? || e.PointerInput? || e.OtherEvent? {
      InputHeeded(w, e);
    } else if e.UiStep? {
      UiHeeds(w, e.posts);
    } else if e.ControlStep? {
      ControlHeeds(w, e.fails);
    } else {
      DelegateHeeded(w, e);
    }
  }

  /** Binding another delegate parts the one before. */
  lemma BindHeeds(w: Window, alive: bool, posts: Posts)
    requires w.running
    ensures Heeds(w, BindDelegate(alive, posts), Bind(w, alive, posts))
  {
    if w.delegate == MAX_U64 {
      IgnoredHeeds(w, BindDelegate(alive, posts), w);
    } else {
      BindParts(w, alive, posts);
    }
  }

  lemma BindParts(w: Window, alive: bool, posts: Posts)
    requires w.running && w.delegate != MAX_U64
    ensures Bind(w, alive, posts).delegate > w.delegate
  {
  }

  lemma UnbindHeeds(w: Window, delegate: nat)
    requires w.running
    ensures Heeds(w, UnbindDelegate(delegate), Unbind(w, delegate))
  {
    if delegate == 0 || w.delegate != delegate { IgnoredHeeds(w, UnbindDelegate(delegate), w); }
  }
}
