/**
 The host window state behind WindowProtocol, with its fields updated in place (src/host.cpp).
 Every method is proved to take exactly the protocol step it implements, so the guarantees over
 all runs hold of this object.
 */
module WindowHost {
  import opened Common
  import P = WindowProtocol
  import opened WindowGuarantees

  /** Insert a pointer that is not yet listed at its place. */
  method InsertPointer(sorted: seq<nat>, p: nat, ghost s: set<nat>) returns (r: seq<nat>)
    requires P.SortedFrom(sorted, s) && p !in s
    ensures P.SortedFrom(r, s + {p})
  {
    var k := 0;
    while k < |sorted| && sorted[k] < p
      invariant 0 <= k <= |sorted| && forall i | 0 <= i < k :: sorted[i] < p
    {
      k := k + 1;
    }
    r := sorted[..k] + [p] + sorted[k..];
    Inserted(sorted, s, p, k);
  }

  lemma Inserted(sorted: seq<nat>, s: set<nat>, p: nat, k: nat)
    requires P.SortedFrom(sorted, s) && p !in s && k <= |sorted|
    requires (forall i | 0 <= i < k :: sorted[i] < p) && (k < |sorted| ==> sorted[k] >= p)
    ensures P.SortedFrom(sorted[..k] + [p] + sorted[k..], s + {p})
  {
    var r := sorted[..k] + [p] + sorted[k..];
    forall x ensures x in r <==> x in s + {p} { InsertedHas(sorted, p, k, x); }
    forall i, j | 0 <= i < j < |r| ensures r[i] < r[j] {
      assert r[i] == if i < k then sorted[i] else if i == k then p else sorted[i - 1];
      assert r[j] == if j < k then sorted[j] else if j == k then p else sorted[j - 1];
      assert k < |sorted| ==> sorted[k] in sorted;
    }
  }

  lemma InsertedHas(sorted: seq<nat>, p: nat, k: nat, x: nat)
    requires k <= |sorted|
    ensures x in sorted[..k] + [p] + sorted[k..] <==> x in sorted || x == p
  {
    assert sorted == sorted[..k] + sorted[k..];
  }

  method SortPointers(s: set<nat>) returns (r: seq<nat>)
    ensures r == P.Sorted(s)
  {
    var rest := s;
    r := [];
    while rest != {}
      invariant rest <= s && P.SortedFrom(r, s - rest)
    {
      var p :| p in rest;
      r := InsertPointer(r, p, s - rest);
      assert s - rest + {p} == s - (rest - {p});
      rest := rest - {p};
    }
    assert s - rest == s;
    P.SortedExists(s);
    P.SortedUnique(r, P.Sorted(s), s);
  }

  class HostWindow {
    var running: bool
    var deliverQueued: bool
    var alive: bool
    var delegate: nat
    var metrics: P.Metrics
    var visible: bool
    var focused: bool
    var surface: P.Surface
    var frame: P.Frames
    var activePointers: set<nat>
    var ui: seq<P.UiItem>
    var control: seq<P.ControlTask>
    var delivered: seq<P.Delivery>

    ghost function View(): P.Window
      reads this
    {
      P.Window(running, deliverQueued, alive, delegate, metrics, visible, focused, surface, frame, activePointers,
               ui, control, delivered)
    }

    constructor (shape: P.Shape, shown: bool)
      ensures View() == P.Initial(shape, shown)
    {
      running, deliverQueued, alive, delegate := true, true, false, 0;
      metrics, visible, focused, surface := P.Metrics(shape, 1), shown, false, P.Available;
      frame, activePointers := P.Frames(false, false, false, false, 0, 1, None, []), {};
      ui, control, delivered := [], [], [];
    }

    /** take_active_pointers_locked. */
    method TakeActivePointers() returns (pointers: seq<nat>)
      modifies this`activePointers
      ensures pointers == P.Sorted(old(activePointers)) && activePointers == {}
    {
      pointers := SortPointers(activePointers);
      activePointers := {};
    }

    /** The cancellations of one UI task, queued pointer by pointer. */
    method QueueCancels(target: nat, pointers: seq<nat>, always: bool)
      modifies this`ui
      ensures ui == old(ui) + P.Cancels(target, pointers, always)
    {
      ghost var all := P.Cancels(target, pointers, always);
      assert ui + all == old(ui) + all && pointers[0..] == pointers;
      for i := 0 to |pointers|
        invariant ui + P.Cancels(target, pointers[i..], always) == old(ui) + all
      {
        var item := P.Invoke(target, P.Pointer(pointers[i], P.Cancel), always);
        assert pointers[i..][1..] == pointers[i + 1..];
        Associate(ui, [item], P.Cancels(target, pointers[i + 1..], always));
        ui := ui + [item];
      }
      assert ui + [] == ui;
    }

    /** The delegate is dropped once the shutdown notice went out, or could not be posted. */
    method Release(target: nat)
      modifies this`deliverQueued, this`alive, this`delegate
      ensures View() == P.Release(old(View()), target)
    {
      deliverQueued := false;
      if delegate == target {
        alive := false;
        if delegate != MAX_U64 { delegate := delegate + 1; }
      }
    }

    method Shutdown(post: Post)
      modifies this
      ensures View() == P.Shutdown(old(View()), post)
    {
      if !running { return; }
      running := false;
      frame := frame.(demand := false, armed := false);
      if frame.generation != MAX_U64 { frame := frame.(generation := frame.generation + 1); }
      var pointers := TakeActivePointers();
      match post
      case Accepted =>
        QueueCancels(delegate, pointers, true);
        ui := ui + [P.Invoke(delegate, P.ShuttingDown, true), P.ShutdownDone(delegate)];
      case Refused => Release(delegate);
    }

    /** arm_frame_locked. */
    method Arm() returns (generation: Option<nat>)
      modifies this`frame
      ensures View() == P.Arm(old(View())) && generation == P.ArmedGeneration(old(View()))
    {
      if !running || !visible || surface != P.Available || frame.armed || frame.delivering || !frame.demand {
        return None;
      }
      if frame.generation == MAX_U64 {
        frame := frame.(exhausted := true);
        return None;
      }
      frame := frame.(generation := frame.generation + 1, armed := true);
      return Some(frame.generation);
    }

    /** invalidate_frame_locked. */
    method Invalidate()
      modifies this`frame
      ensures frame == P.InvalidateFrames(old(frame))
    {
      if frame.armed || frame.delivering { frame := frame.(demand := true, armed := false); }
      if frame.generation != MAX_U64 {
        frame := frame.(generation := frame.generation + 1);
      } else {
        frame := frame.(exhausted := true);
      }
    }

    /** post_frame_control, then the shutdown its callers perform when it or the counter failed. */
    method Finish(cancel: bool, generation: Option<nat>, posts: P.Posts)
      modifies this
      ensures View() == P.Finish(old(View()), cancel, generation, posts)
    {
      if cancel || generation.Some? {
        if posts.control.Refused? {
          Shutdown(posts.shutdown);
          return;
        }
        control := control + [P.ControlTask(cancel, generation)];
      }
      if frame.exhausted {
        frame := frame.(exhausted := false);
        Shutdown(posts.shutdown);
      }
    }

    method Bind(present: bool, posts: P.Posts)
      modifies this
      ensures View() == P.Bind(old(View()), present, posts)
    {
      if !running || delegate == MAX_U64 { return; }
      delegate := delegate + 1;
      alive, activePointers := present, {};
      match posts.ui
      case Refused => Shutdown(posts.shutdown);
      case Accepted =>
        ui := ui + [P.Invoke(delegate, P.Created(metrics), false)]
              + if visible then [P.Invoke(delegate, P.VisibilityChanged(true), false)] else [];
    }

    method Unbind(target: nat)
      modifies this`alive, this`activePointers, this`delegate
      ensures View() == P.Unbind(old(View()), target)
    {
      if target != 0 && delegate == target {
        alive, activePointers := false, {};
        if delegate != MAX_U64 { delegate := delegate + 1; }
      }
    }

    method RequestFrame(posts: P.Posts)
      modifies this
      ensures View() == P.RequestFrame(old(View()), posts)
    {
      if !running { return; }
      frame := frame.(demand := true);
      var generation := Arm();
      Finish(false, generation, posts);
    }

    method SetMetrics(shape: P.Shape, posts: P.Posts)
      modifies this
      ensures View() == P.SetMetrics(old(View()), shape, posts)
    {
      if !running || metrics.shape == shape || metrics.generation == MAX_U64 || !P.ShapeValid(shape) { return; }
      ChangeMetrics(P.Metrics(shape, metrics.generation + 1), posts);
    }

    method ChangeMetrics(next: P.Metrics, posts: P.Posts)
      modifies this
      ensures View() == P.ChangeMetrics(old(View()), next, posts)
    {
      var cancel := frame.armed;
      Invalidate();
      metrics := next;
      ghost var changed := P.Invalidate(old(View()).(metrics := next));
      assert View() == changed;
      var generation := Arm();
      match posts.ui
      case Refused => Shutdown(posts.shutdown);
      case Accepted =>
        ui := ui + [P.Invoke(delegate, P.MetricsChanged(next), false)];
        Finish(cancel, generation, posts);
    }

    method SetVisible(next: bool, posts: P.Posts)
      modifies this
      ensures View() == P.SetVisible(old(View()), next, posts)
    {
      if !running || visible == next { return; }
      if next { Show(posts); } else { Hide(posts); }
    }

    method Show(posts: P.Posts)
      requires running && !visible
      modifies this
      ensures View() == P.SetVisible(old(View()), true, posts)
    {
      visible := true;
      ghost var shown := View();
      assert shown == old(View()).(visible := true);
      var generation := Arm();
      match posts.ui
      case Refused => Shutdown(posts.shutdown);
      case Accepted =>
        ui := ui + [P.Invoke(delegate, P.VisibilityChanged(true), false)];
        Finish(false, generation, posts);
    }

    /** The pointers taken for cancellation go back when the task cannot be posted. */
    method Hide(posts: P.Posts)
      requires running && visible
      modifies this
      ensures View() == P.SetVisible(old(View()), false, posts)
    {
      var focusLost, cancel := focused, frame.armed;
      var pointers := Conceal();
      if posts.ui.Refused? {
        GiveBack(pointers, old(activePointers));
        Shutdown(posts.shutdown);
        return;
      }
      TellHidden(pointers, focusLost, cancel, posts);
    }

    method Conceal() returns (pointers: seq<nat>)
      modifies this`visible, this`focused, this`activePointers, this`frame
      ensures pointers == P.Sorted(old(activePointers)) && activePointers == {}
      ensures !visible && !focused && frame == P.InvalidateFrames(old(frame))
    {
      visible, focused := false, false;
      pointers := TakeActivePointers();
      Invalidate();
    }

    method GiveBack(pointers: seq<nat>, ghost taken: set<nat>)
      requires activePointers == {} && pointers == P.Sorted(taken)
      modifies this`activePointers
      ensures activePointers == taken
    {
      P.SortedExists(taken);
      activePointers := activePointers + set p | p in pointers;
    }

    method TellHidden(pointers: seq<nat>, focusLost: bool, cancel: bool, posts: P.Posts)
      modifies this
      ensures var told := old(ui) + P.Cancels(old(delegate), pointers, false)
                          + (if focusLost then [P.Invoke(old(delegate), P.FocusChanged(false), false)] else [])
                          + [P.Invoke(old(delegate), P.VisibilityChanged(false), false)];
              View() == P.Finish(old(View()).(ui := told), cancel, None, posts)
    {
      QueueCancels(delegate, pointers, false);
      ui := ui + (if focusLost then [P.Invoke(delegate, P.FocusChanged(false), false)] else [])
            + [P.Invoke(delegate, P.VisibilityChanged(false), false)];
      Finish(cancel, None, posts);
    }

    method SetFocused(next: bool, posts: P.Posts)
      modifies this
      ensures View() == P.SetFocused(old(View()), next, posts)
    {
      if !running || focused == next || (next && !visible) { return; }
      focused := next;
      var pointers: seq<nat> := [];
      if !next { pointers := TakeActivePointers(); }
      match posts.ui
      case Refused =>
        activePointers := activePointers + set p | p in pointers;
        assert activePointers == old(activePointers);
        Shutdown(posts.shutdown);
      case Accepted =>
        QueueCancels(delegate, pointers, false);
        ui := ui + [P.Invoke(delegate, P.FocusChanged(next), false)];
    }

    method FramePulse(timestamp: int, generation: nat, posts: P.Posts)
      modifies this
      ensures View() == P.FramePulse(old(View()), timestamp, generation, posts)
    {
      if !running || !frame.armed || frame.generation != generation || !visible || surface != P.Available { return; }
      if timestamp < 0 || (frame.lastTimestamp.Some? && timestamp < frame.lastTimestamp.value) { return; }
      if frame.nextSequence == MAX_U64 {
        frame := frame.(armed := false, delivering := false);
        Shutdown(posts.shutdown);
        return;
      }
      var request := P.FrameRequest(metrics, timestamp, frame.nextSequence);
      frame := frame.(armed := false, delivering := true, demand := false, lastTimestamp := Some(timestamp),
                      nextSequence := frame.nextSequence + 1, pulses := frame.pulses + [generation]);
      match posts.ui
      case Refused => Shutdown(posts.shutdown);
      case Accepted => ui := ui + [P.FrameCall(delegate, request), P.FrameDone];
    }

    /** The active set is updated first and rolled back when the event cannot be posted. */
    method SendPointer(id: nat, phase: P.Phase, finite: bool, posts: P.Posts)
      modifies this
      ensures View() == P.SendPointer(old(View()), id, phase, finite, posts)
    {
      if !running || !visible || !finite { return; }
      var active := id in activePointers;
      match phase {
        case Down =>
          if active { return; }
          activePointers := activePointers + {id};
        case Move =>
          if !active { return; }
        case Up =>
          if !active { return; }
          activePointers := activePointers - {id};
        case Cancel =>
          if !active { return; }
          activePointers := activePointers - {id};
      }
      if posts.ui.Accepted? {
        ui := ui + [P.Invoke(delegate, P.Pointer(id, phase), false)];
        return;
      }
      if phase.Down? {
        activePointers := activePointers - {id};
      } else {
        activePointers := activePointers + {id};
      }
      assert activePointers == old(activePointers);
      Shutdown(posts.shutdown);
    }

    method SetSurface(next: P.Surface, posts: P.Posts)
      modifies this
      ensures View() == P.SetSurface(old(View()), next, posts)
    {
      if !running || surface == next { return; }
      var renewed := next.OutOfDate? || next.Available?;
      if renewed {
        if metrics.generation == MAX_U64 {
          Shutdown(posts.shutdown);
          return;
        }
        metrics := metrics.(generation := metrics.generation + 1);
      }
      surface := next;
      var cancel, generation := Rearm();
      TellSurface(renewed, cancel, generation, posts, old(View()));
    }

    /** A frame is asked for on an available surface; on any other a pending one is dropped. */
    method Rearm() returns (cancel: bool, generation: Option<nat>)
      modifies this`frame
      ensures View() == if surface.Available? then P.Arm(old(View())) else P.Invalidate(old(View()))
      ensures cancel == (!surface.Available? && old(frame).armed)
      ensures generation == if surface.Available? then P.ArmedGeneration(old(View())) else None
    {
      cancel, generation := false, None;
      if surface.Available? {
        generation := Arm();
      } else {
        cancel := frame.armed;
        Invalidate();
      }
    }

    method TellSurface(renewed: bool, cancel: bool, generation: Option<nat>, posts: P.Posts, ghost w: P.Window)
      requires w.delegate == delegate && w.ui == ui && renewed == (metrics != w.metrics)
      modifies this
      ensures View() == P.TellSurface(w, old(View()), cancel, generation, posts)
    {
      match posts.ui
      case Refused => Shutdown(posts.shutdown);
      case Accepted =>
        ui := ui + ((if renewed then [P.Invoke(delegate, P.MetricsChanged(metrics), false)] else [])
                    + [P.Invoke(delegate, P.SurfaceChanged(surface, metrics.generation), false)]);
        Finish(cancel, generation, posts);
    }

    method Notify(posts: P.Posts)
      modifies this
      ensures View() == P.Notify(old(View()), posts)
    {
      if !running { return; }
      match posts.ui
      case Refused => Shutdown(posts.shutdown);
      case Accepted => ui := ui + [P.Invoke(delegate, P.Other, false)];
    }

    /** invoke_delegate. */
    method Deliver(target: nat, call: P.Call, always: bool)
      modifies this`delivered
      ensures View() == P.Deliver(old(View()), target, call, always)
    {
      if (!always && !running && !deliverQueued) || delegate != target || !alive { return; }
      delivered := delivered + [P.Delivery(target, call)];
    }

    method CompleteFrame(posts: P.Posts)
      modifies this
      ensures View() == P.CompleteFrame(old(View()), posts)
    {
      frame := frame.(delivering := false);
      var generation := Arm();
      Finish(false, generation, posts);
    }

    /** The UI executor runs the callback at the front of its queue. */
    method RunUi(posts: P.Posts)
      modifies this
      ensures View() == P.RunUi(old(View()), posts)
    {
      if ui == [] { return; }
      var item := ui[0];
      ui := ui[1..];
      match item
      case Invoke(target, call, always) => Deliver(target, call, always);
      case FrameCall(target, request) =>
        if running && frame.delivering && visible && surface == P.Available &&
           metrics.generation == request.metrics.generation {
          Deliver(target, P.FrameRequested(request), false);
        }
      case FrameDone => CompleteFrame(posts);
      case ShutdownDone(target) => Release(target);
    }

    /** The platform executor asks the native window for a frame. */
    method RunControl(fails: bool)
      modifies this`control, this`frame
      ensures View() == P.RunControl(old(View()), fails)
    {
      if control == [] { return; }
      var task := control[0];
      control := control[1..];
      if running && fails && task.generation.Some? && frame.armed && frame.generation == task.generation.value {
        frame := frame.(armed := false, demand := false);
      }
    }

    method Handle(e: P.Event)
      modifies this
      ensures View() == P.Step(old(View()), e)
    {
      match e
      case BindDelegate(present, posts) => Bind(present, posts);
      case UnbindDelegate(target) => Unbind(target);
      case DelegateDies => alive := false;
      case RequestsFrame(posts) => RequestFrame(posts);
      case MetricsEvent(shape, posts) => SetMetrics(shape, posts);
      case VisibleEvent(next, posts) => SetVisible(next, posts);
      case FocusEvent(next, posts) => SetFocused(next, posts);
      case PulseEvent(timestamp, generation, posts) => FramePulse(timestamp, generation, posts);
      case PointerInput(id, phase, finite, posts) => SendPointer(id, phase, finite, posts);
      case SurfaceEvent(next, posts) => SetSurface(next, posts);
      case OtherEvent(posts) => Notify(posts);
      case ShutdownEvent(post) => Shutdown(post);
      case UiStep(posts) => RunUi(posts);
      case ControlStep(fails) => RunControl(fails);
    }
  }

  /** Drive a new window through any script: its callbacks are those of the protocol run and obey the contract. */
  method Drive(shape: P.Shape, visible: bool, events: seq<P.Event>) returns (calls: seq<P.Delivery>)
    ensures calls == P.Run(shape, visible, events).delivered
    ensures forall g, p :: StreamOk(Phases(calls, g, p))
    ensures forall k | 0 <= k < |calls| && calls[k].call.ShuttingDown? :: k == |calls| - 1
  {
    var window := new HostWindow(shape, visible);
    for n := 0 to |events|
      invariant fresh(window) && window.View() == P.Run(shape, visible, events[..n])
    {
      assert events[..n + 1][..n] == events[..n];
      window.Handle(events[n]);
    }
    assert events[..|events|] == events;
    calls := window.delivered;
    forall g, p ensures StreamOk(Phases(calls, g, p)) { PointerStreams(shape, visible, events, g, p); }
    forall k | 0 <= k < |calls| && calls[k].call.ShuttingDown? ensures k == |calls| - 1 {
      ShutdownIsLast(shape, visible, events, k, 0);
    }
  }
}
