/**
 The host window as its delegate sees it (src/host.cpp): frame scheduling, metrics, visibility,
 focus, surface and pointer events, rebinding and shutdown, across the platform and UI
 executors.  A UI task is queued as its individual callbacks, so entry points may run between
 any two callbacks of one task.
 */
module WindowProtocol {
  import opened Common

  // ---------------------------------------------------------------- data

  datatype Shape = Shape(width: real, height: real, physicalWidth: nat, physicalHeight: nat, ratio: real)
  datatype Metrics = Metrics(shape: Shape, generation: nat)

  function Abs(x: real): real {
    if x < 0.0 then -x else x
  }

  /** SurfaceRequest::valid. */
  predicate ShapeValid(s: Shape) {
    && s.width >= 0.0 && s.height >= 0.0 && s.ratio > 0.0
    && (if s.width == 0.0 || s.height == 0.0 then s.physicalWidth == 0 || s.physicalHeight == 0
        else s.physicalWidth != 0 && s.physicalHeight != 0)
    && Abs(s.physicalWidth as real - s.width * s.ratio) <= 1.0
    && Abs(s.physicalHeight as real - s.height * s.ratio) <= 1.0
  }

  datatype Surface = Available | Unavailable | OutOfDate | Lost
  datatype Phase = Down | Move | Up | Cancel
  datatype FrameRequest = FrameRequest(metrics: Metrics, timestamp: int, sequence: nat)

  /** The callbacks of HostWindowDelegate; Other stands for keys, close requests and actions. */
  datatype Call =
    | Created(metrics: Metrics)
    | MetricsChanged(metrics: Metrics)
    | VisibilityChanged(visible: bool)
    | FocusChanged(focused: bool)
    | SurfaceChanged(surface: Surface, generation: nat)
    | FrameRequested(request: FrameRequest)
    | Pointer(id: nat, phase: Phase)
    | Other
    | ShuttingDown

  /** A callback that reached the delegate bound under `delegate`. */
  datatype Delivery = Delivery(delegate: nat, call: Call)

  datatype UiItem =
    | Invoke(delegate: nat, call: Call, always: bool)   // always: delivered although no longer running
    | FrameCall(delegate: nat, request: FrameRequest)
    | FrameDone
    | ShutdownDone(delegate: nat)

  datatype ControlTask = ControlTask(cancel: bool, generation: Option<nat>)

  /** The frame scheduler: frame_demand, frame_armed and so on. */
  datatype Frames = Frames(
    demand: bool,
    armed: bool,
    delivering: bool,
    exhausted: bool,
    generation: nat,
    nextSequence: nat,
    lastTimestamp: Option<int>,
    pulses: seq<nat>)            // history: the native generations that produced a frame

  datatype Window = Window(
    running: bool,
    deliverQueued: bool,
    alive: bool,                 // the delegate still exists
    delegate: nat,               // its generation
    metrics: Metrics,
    visible: bool,
    focused: bool,
    surface: Surface,
    frame: Frames,
    activePointers: set<nat>,
    ui: seq<UiItem>,
    control: seq<ControlTask>,
    delivered: seq<Delivery>)    // history: every callback that was made

  datatype Posts = Posts(ui: Post, control: Post, shutdown: Post)

  function Initial(shape: Shape, visible: bool): Window {
    Window(true, true, false, 0, Metrics(shape, 1), visible, false, Available,
           Frames(false, false, false, false, 0, 1, None, []), {}, [], [], [])
  }

  // ---------------------------------------------------------------- sorted pointers

  predicate Least(m: nat, s: set<nat>) {
    m in s && forall x | x in s :: m <= x
  }

  lemma LeastExists(s: set<nat>)
    requires s != {}
    ensures exists m :: Least(m, s)
  {
    var a :| a in s;
    var rest := s - {a};
    if rest == {} {
      assert s == {a};
      assert Least(a, s);
    } else {
      LeastExists(rest);
      var m :| Least(m, rest);
      assert Least(if a <= m then a else m, s) by {
        forall x | x in s ensures x == a || x in rest { }
      }
    }
  }

  ghost predicate SortedFrom(r: seq<nat>, s: set<nat>) {
    (forall x :: x in r <==> x in s) && forall i, j | 0 <= i < j < |r| :: r[i] < r[j]
  }

  lemma SortedExists(s: set<nat>)
    ensures exists r :: SortedFrom(r, s)
  {
    if s == {} {
      assert SortedFrom([], s);
    } else {
      LeastExists(s);
      var m :| Least(m, s);
      SortedExists(s - {m});
      var rest :| SortedFrom(rest, s - {m});
      forall i | 0 <= i < |rest| ensures m < rest[i] { assert rest[i] in rest; }
      assert SortedFrom([m] + rest, s);
    }
  }

  /** take_active_pointers_locked hands the pointers out in increasing order. */
  ghost function Sorted(s: set<nat>): seq<nat> {
    SortedExists(s);
    var r :| SortedFrom(r, s);
    r
  }

  lemma {:induction false} SortedUnique(r: seq<nat>, q: seq<nat>, s: set<nat>)
    requires SortedFrom(r, s) && SortedFrom(q, s)
    ensures r == q
  {
    SortedEmpty(r, s);
    SortedEmpty(q, s);
    if s != {} {
      assert r[0] in q && q[0] in r;
      assert r[0] == q[0];
      SortedTail(r, s);
      SortedTail(q, s);
      SortedUnique(r[1..], q[1..], s - {r[0]});
      assert r == [r[0]] + r[1..] && q == [q[0]] + q[1..];
    }
  }

  lemma SortedEmpty(r: seq<nat>, s: set<nat>)
    requires SortedFrom(r, s)
    ensures r == [] <==> s == {}
  {
    if r != [] { assert r[0] in r; }
  }

  lemma SortedTail(r: seq<nat>, s: set<nat>)
    requires SortedFrom(r, s) && r != []
    ensures SortedFrom(r[1..], s - {r[0]})
  {
    forall x ensures x in r[1..] <==> x in s - {r[0]} {
      assert x in r <==> x == r[0] || x in r[1..];
    }
  }

  function Cancels(delegate: nat, pointers: seq<nat>, always: bool): seq<UiItem> {
    if pointers == [] then []
    else [Invoke(delegate, Pointer(pointers[0], Cancel), always)] + Cancels(delegate, pointers[1..], always)
  }

  // ---------------------------------------------------------------- shared pieces of the entry points

  function Bump(generation: nat): nat {
    if generation == MAX_U64 then generation else generation + 1
  }

  /** Dropping the delegate at the end of a shutdown. */
  function Release(w: Window, delegate: nat): Window {
    if w.delegate == delegate then w.(deliverQueued := false, alive := false, delegate := Bump(delegate))
    else w.(deliverQueued := false)
  }

  function StopFrames(f: Frames): Frames {
    f.(demand := false, armed := false, generation := Bump(f.generation))
  }

  ghost function Shutdown(w: Window, post: Post): Window {
    if !w.running then w
    else
      var stopped := w.(running := false, frame := StopFrames(w.frame), activePointers := {});
      match post
      case Accepted =>
        stopped.(ui := w.ui + Cancels(w.delegate, Sorted(w.activePointers), true)
                       + [Invoke(w.delegate, ShuttingDown, true), ShutdownDone(w.delegate)])
      case Refused => Release(stopped, w.delegate)
  }

  predicate CanArm(w: Window) {
    w.running && w.visible && w.surface == Available && !w.frame.armed && !w.frame.delivering && w.frame.demand
  }

  /** arm_frame_locked. */
  function Arm(w: Window): Window {
    if CanArm(w) then w.(frame := ArmFrames(w.frame)) else w
  }

  function ArmFrames(f: Frames): Frames {
    if f.generation == MAX_U64 then f.(exhausted := true) else f.(generation := f.generation + 1, armed := true)
  }

  function ArmedGeneration(w: Window): Option<nat> {
    if CanArm(w) && w.frame.generation != MAX_U64 then Some(w.frame.generation + 1) else None
  }

  /** invalidate_frame_locked. */
  function Invalidate(w: Window): Window {
    w.(frame := InvalidateFrames(w.frame))
  }

  function InvalidateFrames(f: Frames): Frames {
    var demanding := if f.armed || f.delivering then f.(demand := true, armed := false) else f;
    if f.generation == MAX_U64 then demanding.(exhausted := true) else demanding.(generation := f.generation + 1)
  }

  /** The tail of the entry points: post the frame control, and shut down if that or the counter failed. */
  ghost function Finish(w: Window, cancel: bool, generation: Option<nat>, posts: Posts): Window {
    var wanted := cancel || generation.Some?;
    if wanted && posts.control.Refused? then Shutdown(w, posts.shutdown)
    else
      var sent := if wanted then w.(control := w.control + [ControlTask(cancel, generation)]) else w;
      if sent.frame.exhausted then Shutdown(sent.(frame := sent.frame.(exhausted := false)), posts.shutdown) else sent
  }

  // ---------------------------------------------------------------- entry points

  ghost function Bind(w: Window, alive: bool, posts: Posts): Window {
    if !w.running || w.delegate == MAX_U64 then w
    else
      var g := w.delegate + 1;
      var bound := w.(delegate := g, alive := alive, activePointers := {});
      match posts.ui
      case Refused => Shutdown(bound, posts.shutdown)
      case Accepted =>
        bound.(ui := w.ui + [Invoke(g, Created(w.metrics), false)]
                     + if w.visible then [Invoke(g, VisibilityChanged(true), false)] else [])
  }

  /** DelegateBinding::reset. */
  function Unbind(w: Window, delegate: nat): Window {
    if delegate == 0 || w.delegate != delegate then w
    else w.(alive := false, activePointers := {}, delegate := Bump(delegate))
  }

  ghost function RequestFrame(w: Window, posts: Posts): Window {
    if !w.running then w
    else
      var demanded := w.(frame := w.frame.(demand := true));
      Finish(Arm(demanded), false, ArmedGeneration(demanded), posts)
  }

  ghost function SetMetrics(w: Window, shape: Shape, posts: Posts): Window {
    if !w.running || w.metrics.shape == shape || w.metrics.generation == MAX_U64 || !ShapeValid(shape) then w
    else ChangeMetrics(w, Metrics(shape, w.metrics.generation + 1), posts)
  }

  ghost function ChangeMetrics(w: Window, metrics: Metrics, posts: Posts): Window {
    var changed := Invalidate(w.(metrics := metrics));
    match posts.ui
    case Refused => Shutdown(Arm(changed), posts.shutdown)
    case Accepted =>
      Finish(Arm(changed).(ui := w.ui + [Invoke(w.delegate, MetricsChanged(metrics), false)]),
             w.frame.armed, ArmedGeneration(changed), posts)
  }

  ghost function SetVisible(w: Window, visible: bool, posts: Posts): Window {
    if !w.running || w.visible == visible then w
    else if visible then
      var shown := w.(visible := true);
      match posts.ui
      case Refused => Shutdown(Arm(shown), posts.shutdown)
      case Accepted =>
        Finish(Arm(shown).(ui := w.ui + [Invoke(w.delegate, VisibilityChanged(true), false)]),
               false, ArmedGeneration(shown), posts)
    else
      var hidden := Invalidate(w.(visible := false, focused := false));
      match posts.ui
      case Refused => Shutdown(hidden, posts.shutdown)
      case Accepted =>
        Finish(hidden.(activePointers := {},
                       ui := w.ui + Cancels(w.delegate, Sorted(w.activePointers), false)
                             + (if w.focused then [Invoke(w.delegate, FocusChanged(false), false)] else [])
                             + [Invoke(w.delegate, VisibilityChanged(false), false)]),
               w.frame.armed, None, posts)
  }

  ghost function SetFocused(w: Window, focused: bool, posts: Posts): Window {
    if !w.running || w.focused == focused || (focused && !w.visible) then w
    else
      var changed := w.(focused := focused);
      match posts.ui
      case Refused => Shutdown(changed, posts.shutdown)
      case Accepted =>
        changed.(activePointers := if focused then w.activePointers else {},
                 ui := w.ui + (if focused then [] else Cancels(w.delegate, Sorted(w.activePointers), false))
                       + [Invoke(w.delegate, FocusChanged(focused), false)])
  }

  function TakePulse(f: Frames, timestamp: int): Frames {
    f.(armed := false, delivering := true, demand := false, lastTimestamp := Some(timestamp),
       nextSequence := f.nextSequence + 1, pulses := f.pulses + [f.generation])
  }

  ghost function FramePulse(w: Window, timestamp: int, generation: nat, posts: Posts): Window {
    if !w.running || !w.frame.armed || w.frame.generation != generation || !w.visible || w.surface != Available then w
    else if timestamp < 0 || (w.frame.lastTimestamp.Some? && timestamp < w.frame.lastTimestamp.value) then w
    else if w.frame.nextSequence == MAX_U64 then
      Shutdown(w.(frame := w.frame.(armed := false, delivering := false)), posts.shutdown)
    else
      var request := FrameRequest(w.metrics, timestamp, w.frame.nextSequence);
      var taken := w.(frame := TakePulse(w.frame, timestamp));
      match posts.ui
      case Refused => Shutdown(taken, posts.shutdown)
      case Accepted => taken.(ui := w.ui + [FrameCall(w.delegate, request), FrameDone])
  }

  /** Whether an event continues the stream of its pointer; Cancel of an idle pointer is ignored. */
  predicate PointerAccepted(w: Window, id: nat, phase: Phase) {
    if phase.Down? then id !in w.activePointers else id in w.activePointers
  }

  ghost function SendPointer(w: Window, id: nat, phase: Phase, finite: bool, posts: Posts): Window {
    if !w.running || !w.visible || !finite || !PointerAccepted(w, id, phase) then w
    else match posts.ui
      case Refused => Shutdown(w, posts.shutdown)
      case Accepted =>
        w.(activePointers := if phase.Down? then w.activePointers + {id}
                             else if phase.Move? then w.activePointers
                             else w.activePointers - {id},
           ui := w.ui + [Invoke(w.delegate, Pointer(id, phase), false)])
  }

  ghost function SetSurface(w: Window, surface: Surface, posts: Posts): Window {
    if !w.running || w.surface == surface then w
    else
      var renewed := surface.OutOfDate? || surface.Available?;
      if renewed && w.metrics.generation == MAX_U64 then Shutdown(w, posts.shutdown)
      else
        var metrics := if renewed then w.metrics.(generation := w.metrics.generation + 1) else w.metrics;
        MoveSurface(w, surface, metrics, posts)
  }

  ghost function MoveSurface(w: Window, surface: Surface, metrics: Metrics, posts: Posts): Window {
    var moved := w.(surface := surface, metrics := metrics);
    if surface.Available? then TellSurface(w, Arm(moved), false, ArmedGeneration(moved), posts)
    else TellSurface(w, Invalidate(moved), w.frame.armed, None, posts)
  }

  /** The surface notice, preceded by the renewed metrics when there are any. */
  function SurfaceItems(w: Window, next: Window): seq<UiItem> {
    (if next.metrics == w.metrics then [] else [Invoke(w.delegate, MetricsChanged(next.metrics), false)])
    + [Invoke(w.delegate, SurfaceChanged(next.surface, next.metrics.generation), false)]
  }

  ghost function TellSurface(w: Window, next: Window, cancel: bool, generation: Option<nat>, posts: Posts): Window {
    match posts.ui
    case Refused => Shutdown(next, posts.shutdown)
    case Accepted => Finish(next.(ui := w.ui + SurfaceItems(w, next)), cancel, generation, posts)
  }

  /** Key, close and action events: one more callback for the current delegate. */
  ghost function Notify(w: Window, posts: Posts): Window {
    if !w.running then w
    else match posts.ui
      case Refused => Shutdown(w, posts.shutdown)
      case Accepted => w.(ui := w.ui + [Invoke(w.delegate, Other, false)])
  }

  // ---------------------------------------------------------------- the executors

  predicate Reaches(w: Window, delegate: nat, always: bool) {
    (always || w.running || w.deliverQueued) && w.delegate == delegate && w.alive
  }

  /** invoke_delegate. */
  function Deliver(w: Window, delegate: nat, call: Call, always: bool): Window {
    if Reaches(w, delegate, always) then w.(delivered := w.delivered + [Delivery(delegate, call)]) else w
  }

  predicate FrameCurrent(w: Window, request: FrameRequest) {
    w.running && w.frame.delivering && w.visible && w.surface == Available
    && w.metrics.generation == request.metrics.generation
  }

  /** The end of a frame task: the next frame may be armed. */
  ghost function CompleteFrame(w: Window, posts: Posts): Window {
    var idle := w.(frame := w.frame.(delivering := false));
    Finish(Arm(idle), false, ArmedGeneration(idle), posts)
  }

  ghost function RunUi(w: Window, posts: Posts): Window {
    if w.ui == [] then w
    else
      var popped := w.(ui := w.ui[1..]);
      match w.ui[0]
      case Invoke(delegate, call, always) => Deliver(popped, delegate, call, always)
      case FrameCall(delegate, request) =>
        if FrameCurrent(popped, request) then Deliver(popped, delegate, FrameRequested(request), false) else popped
      case FrameDone => CompleteFrame(popped, posts)
      case ShutdownDone(delegate) => Release(popped, delegate)
  }

  /** The native control may throw when asked for a frame; the demand is then dropped. */
  function RunControl(w: Window, fails: bool): Window {
    if w.control == [] then w
    else
      var task, popped := w.control[0], w.(control := w.control[1..]);
      if w.running && fails && task.generation.Some? && w.frame.armed
         && w.frame.generation == task.generation.value then
        popped.(frame := w.frame.(armed := false, demand := false))
      else popped
  }

  datatype Event =
    | BindDelegate(alive: bool, posts: Posts)
    | UnbindDelegate(delegate: nat)
    | DelegateDies
    | RequestsFrame(posts: Posts)
    | MetricsEvent(shape: Shape, posts: Posts)
    | VisibleEvent(visible: bool, posts: Posts)
    | FocusEvent(focused: bool, posts: Posts)
    | PulseEvent(timestamp: int, generation: nat, posts: Posts)
    | PointerInput(id: nat, phase: Phase, finite: bool, posts: Posts)
    | SurfaceEvent(surface: Surface, posts: Posts)
    | OtherEvent(posts: Posts)
    | ShutdownEvent(post: Post)
    | UiStep(posts: Posts)
    | ControlStep(fails: bool)

  ghost function Step(w: Window, e: Event): Window {
    match e
    case BindDelegate(alive, posts) => Bind(w, alive, posts)
    case UnbindDelegate(delegate) => Unbind(w, delegate)
    case DelegateDies => w.(alive := false)
    case RequestsFrame(posts) => RequestFrame(w, posts)
    case MetricsEvent(shape, posts) => SetMetrics(w, shape, posts)
    case VisibleEvent(visible, posts) => SetVisible(w, visible, posts)
    case FocusEvent(focused, posts) => SetFocused(w, focused, posts)
    case PulseEvent(timestamp, generation, posts) => FramePulse(w, timestamp, generation, posts)
    case PointerInput(id, phase, finite, posts) => SendPointer(w, id, phase, finite, posts)
    case SurfaceEvent(surface, posts) => SetSurface(w, surface, posts)
    case OtherEvent(posts) => Notify(w, posts)
    case ShutdownEvent(post) => Shutdown(w, post)
    case UiStep(posts) => RunUi(w, posts)
    case ControlStep(fails) => RunControl(w, fails)
  }

  ghost function Run(shape: Shape, visible: bool, events: seq<Event>): Window {
    if events == [] then Initial(shape, visible)
    else Step(Run(shape, visible, events[..|events| - 1]), events[|events| - 1])
  }
}
