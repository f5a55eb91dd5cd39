/**
 What every run of the host window guarantees: the scheduler's flags, and the contract that
 each delegate's callback history obeys.
 */
module WindowRuns {
  import opened Common
  import opened WindowProtocol

  // ---------------------------------------------------------------- the delegate's contract

  /** One pointer of one delegate: None after a malformed event, else whether it is down. */
  function Next(open: Option<bool>, phase: Phase): Option<bool> {
    match phase
    case Down => if open == Some(false) then Some(true) else None
    case Move => if open == Some(true) then Some(true) else None
    case Up => if open == Some(true) then Some(false) else None
    case Cancel => if open == Some(true) then Some(false) else None
  }

  function PointerOpen(log: seq<Delivery>, g: nat, p: nat): Option<bool> {
    if log == [] then Some(false)
    else
      var before, last := PointerOpen(log[..|log| - 1], g, p), log[|log| - 1];
      if last.delegate == g && last.call.Pointer? && last.call.id == p then Next(before, last.call.phase) else before
  }

  /** The metrics a delegate was last told. */
  function Told(log: seq<Delivery>, g: nat): Option<Metrics> {
    if log == [] then None
    else
      var last := log[|log| - 1];
      if last.delegate == g && (last.call.Created? || last.call.MetricsChanged?) then Some(last.call.metrics)
      else Told(log[..|log| - 1], g)
  }

  predicate FramesBefore(log: seq<Delivery>, r: FrameRequest) {
    forall d | d in log && d.call.FrameRequested? ::
      d.call.request.sequence < r.sequence && d.call.request.timestamp <= r.timestamp
  }

  predicate NoShutdown(log: seq<Delivery>) {
    forall d | d in log :: !d.call.ShuttingDown?
  }

  /**
   The callback may come next: nothing follows the shutdown notice, pointer streams are
   (down move* (up|cancel))*, frames carry the metrics the delegate knows, in order, and the
   shutdown notice finds every pointer closed.
   */
  ghost predicate Allowed(log: seq<Delivery>, d: Delivery) {
    && NoShutdown(log)
    && match d.call
       case Pointer(p, phase) => Next(PointerOpen(log, d.delegate, p), phase).Some?
       case FrameRequested(r) => Told(log, d.delegate) == Some(r.metrics) && FramesBefore(log, r)
       case ShuttingDown => forall p :: PointerOpen(log, d.delegate, p) == Some(false)
       case _ => true
  }

  ghost predicate LogOk(log: seq<Delivery>) {
    log == [] || (LogOk(log[..|log| - 1]) && Allowed(log[..|log| - 1], log[|log| - 1]))
  }

  // ---------------------------------------------------------------- what the queue still holds

  function PointerLater(ui: seq<UiItem>, g: nat, p: nat, open: Option<bool>): Option<bool> {
    if ui == [] then open
    else
      var i := ui[0];
      var next := if i.Invoke? && i.delegate == g && i.call.Pointer? && i.call.id == p then Next(open, i.call.phase)
          else open;
      PointerLater(ui[1..], g, p, next)
  }

  predicate TellsMetrics(i: UiItem, g: nat) {
    i.Invoke? && i.delegate == g && (i.call.Created? || i.call.MetricsChanged?)
  }

  function ToldLater(ui: seq<UiItem>, g: nat, told: Option<Metrics>): Option<Metrics> {
    if ui == [] then told
    else ToldLater(ui[1..], g, if TellsMetrics(ui[0], g) then Some(ui[0].call.metrics) else told)
  }

  /** A queued frame that still matches the metrics has no news about metrics behind it. */
  predicate FramesAhead(ui: seq<UiItem>, g: nat, m: Metrics) {
    ui == [] ||
    (FramesAhead(ui[1..], g, m) &&
     (ui[0].FrameCall? && ui[0].delegate == g ==>
        var r := ui[0].request;
        r.metrics.generation <= m.generation &&
        (r.metrics.generation == m.generation ==> r.metrics == m && ToldLater(ui[1..], g, None) == None)))
  }

  ghost predicate PointersMatch(ui: seq<UiItem>, log: seq<Delivery>, g: nat, active: set<nat>) {
    forall p :: PointerLater(ui, g, p, PointerOpen(log, g, p)) == Some(p in active)
  }

  ghost predicate QueueOk(ui: seq<UiItem>, log: seq<Delivery>, g: nat, m: Metrics, active: set<nat>) {
    FramesAhead(ui, g, m) && ToldLater(ui, g, Told(log, g)) == Some(m) && PointersMatch(ui, log, g, active)
  }

  function FrameItems(ui: seq<UiItem>): seq<UiItem> {
    if ui == [] then []
    else (if ui[0].FrameCall? || ui[0].FrameDone? then [ui[0]] else []) + FrameItems(ui[1..])
  }

  // ---------------------------------------------------------------- the invariant

  predicate ItemOk(i: UiItem, delegate: nat) {
    match i
    case Invoke(d, call, _) => d <= delegate && !call.FrameRequested?
    case FrameCall(d, _) => d <= delegate
    case FrameDone => true
    case ShutdownDone(d) => d <= delegate
  }

  predicate ShutdownItem(i: UiItem) {
    i.ShutdownDone? || (i.Invoke? && i.call.ShuttingDown?)
  }

  predicate PulsesOk(w: Window) {
    && (forall i, j | 0 <= i < j < |w.frame.pulses| :: w.frame.pulses[i] < w.frame.pulses[j])
    && (forall g | g in w.frame.pulses :: g <= w.frame.generation && (w.frame.armed ==> g < w.frame.generation))
  }

  ghost predicate Base(w: Window) {
    && (forall i | i in w.ui :: ItemOk(i, w.delegate))
    && (forall d | d in w.delivered :: d.delegate <= w.delegate)
    && LogOk(w.delivered) && PulsesOk(w)
    && (forall d | d in w.delivered && d.call.FrameRequested? ::
          d.call.request.sequence < w.frame.nextSequence && w.frame.lastTimestamp.Some?
              && d.call.request.timestamp <= w.frame.lastTimestamp.value)
  }

  /** The flags of the frame scheduler. */
  predicate Scheduled(w: Window) {
    && !(w.frame.armed && w.frame.delivering)
    && (w.frame.armed ==> w.frame.demand && w.running)
    && (w.running && w.visible && w.surface == Available && w.frame.demand && !w.frame.delivering ==> w.frame.armed)
    && (w.running ==> !w.frame.exhausted)
  }

  predicate Stale(w: Window, r: FrameRequest) {
    !w.visible || w.surface != Available || w.metrics.generation != r.metrics.generation
  }

  /** The frame task in the queue, if any, is the one being delivered. */
  ghost predicate FrameQueued(w: Window) {
    var items := FrameItems(w.ui);
    if !w.frame.delivering then items == []
    else
      || items == [FrameDone]
      || (|items| == 2 && items[0].FrameCall? && items[1] == FrameDone &&
          var r := items[0].request;
          r.sequence + 1 == w.frame.nextSequence && w.frame.lastTimestamp == Some(r.timestamp)
              && FramesBefore(w.delivered, r)
          && (Stale(w, r) ==> w.frame.demand))
  }

  ghost predicate Quiet(w: Window) {
    w.deliverQueued && NoShutdown(w.delivered) && (forall i | i in w.ui :: !ShutdownItem(i))
  }

  ghost predicate Live(w: Window) {
    Quiet(w) && FrameQueued(w) && (w.alive ==> QueueOk(w.ui, w.delivered, w.delegate, w.metrics, w.activePointers))
  }

  /** What may still stand before the shutdown notice of `g`: callbacks that leave every pointer closed. */
  ghost predicate Pending(items: seq<UiItem>, log: seq<Delivery>, g: nat) {
    NoShutdown(log) && (forall i | i in items :: !ShutdownItem(i)) && PointersMatch(items, log, g, {})
  }

  /** After shutdown was accepted: cancels, the notice and the release are the end of the queue. */
  ghost predicate Closing(w: Window) {
    w.deliverQueued &&
    (|| w.ui == [ShutdownDone(w.delegate)]
     || (|w.ui| >= 2 &&
         var n := |w.ui| - 2;
         w.ui[n..] == [Invoke(w.delegate, ShuttingDown, true), ShutdownDone(w.delegate)] &&
         Pending(w.ui[..n], w.delivered, w.delegate)))
  }

  ghost predicate Inv(w: Window) {
    Base(w) && Scheduled(w) && (w.running ==> Live(w)) && (!w.running && w.alive ==> Closing(w))
  }

  // ---------------------------------------------------------------- queue lemmas

  lemma {:induction false} PointerLaterConcat(a: seq<UiItem>, b: seq<UiItem>, g: nat, p: nat, open: Option<bool>)
    ensures PointerLater(a + b, g, p, open) == PointerLater(b, g, p, PointerLater(a, g, p, open))
  {
    if a == [] {
      EmptyPrefix(b);
    } else {
      assert (a + b)[1..] == a[1..] + b;
      var i := a[0];
      PointerLaterConcat(a[1..], b, g, p,
        if i.Invoke? && i.delegate == g && i.call.Pointer? && i.call.id == p then Next(open, i.call.phase) else open);
    }
  }

  lemma {:induction false} ToldLaterConcat(a: seq<UiItem>, b: seq<UiItem>, g: nat, told: Option<Metrics>)
    ensures ToldLater(a + b, g, told) == ToldLater(b, g, ToldLater(a, g, told))
  {
    if a == [] {
      EmptyPrefix(b);
    } else {
      assert (a + b)[1..] == a[1..] + b;
      ToldLaterConcat(a[1..], b, g, if TellsMetrics(a[0], g) then Some(a[0].call.metrics) else told);
    }
  }

  lemma {:induction false} ToldLaterNothing(ui: seq<UiItem>, g: nat, told: Option<Metrics>)
    requires ToldLater(ui, g, None) == None
    ensures ToldLater(ui, g, told) == told
  {
    if ui != [] {
      if TellsMetrics(ui[0], g) {
        ToldLaterSome(ui[1..], g, ui[0].call.metrics);
      } else {
        ToldLaterNothing(ui[1..], g, told);
      }
    }
  }

  lemma {:induction false} ToldLaterSome(ui: seq<UiItem>, g: nat, m: Metrics)
    ensures ToldLater(ui, g, Some(m)).Some?
  {
    if ui != [] {
      ToldLaterSome(ui[1..], g, if TellsMetrics(ui[0], g) then ui[0].call.metrics else m);
    }
  }

  lemma {:induction false} FrameItemsConcat(a: seq<UiItem>, b: seq<UiItem>)
    ensures FrameItems(a + b) == FrameItems(a) + FrameItems(b)
  {
    if a == [] {
      EmptyPrefix(b);
    } else {
      assert (a + b)[1..] == a[1..] + b;
      FrameItemsConcat(a[1..], b);
      Associate(if a[0].FrameCall? || a[0].FrameDone? then [a[0]] else [], FrameItems(a[1..]), FrameItems(b));
    }
  }

  /** Appending one item keeps every queued frame ahead of the metrics, if the item is in order. */
  lemma {:induction false} FramesAheadSnoc(ui: seq<UiItem>, x: UiItem, g: nat, m: Metrics, m': Metrics)
    requires FramesAhead(ui, g, m)
    requires if TellsMetrics(x, g) then m.generation < m'.generation else m' == m
    requires x.FrameCall? && x.delegate == g ==> x.request.metrics == m
    ensures FramesAhead(ui + [x], g, m')
  {
    if ui == [] {
      assert ui + [x] == [x];
      assert ToldLater([], g, None) == None;
    } else {
      assert (ui + [x])[1..] == ui[1..] + [x];
      FramesAheadSnoc(ui[1..], x, g, m, m');
      ToldLaterConcat(ui[1..], [x], g, None);
    }
  }

  /** The effect of one queued item on the metrics and pointers it announces. */
  predicate Announces(x: UiItem, g: nat, m: Metrics, active: set<nat>, m': Metrics, active': set<nat>) {
    match x
    case Invoke(d, call, _) =>
      d == g &&
      (match call
       case MetricsChanged(mm) => m' == mm && m.generation < mm.generation && active' == active
       case Pointer(p, Down) => m' == m && p !in active && active' == active + {p}
       case Pointer(p, Move) => m' == m && p in active && active' == active
       case Pointer(p, _) => m' == m && p in active && active' == active - {p}
       case Created(_) => false
       case _ => m' == m && active' == active)
    case FrameCall(d, r) => r.metrics == m && m' == m && active' == active
    case _ => m' == m && active' == active
  }

  lemma Push(ui: seq<UiItem>, log: seq<Delivery>, g: nat, m: Metrics, active: set<nat>, x: UiItem, m': Metrics,
             active': set<nat>)
    requires QueueOk(ui, log, g, m, active) && Announces(x, g, m, active, m', active')
    ensures QueueOk(ui + [x], log, g, m', active')
  {
    FramesAheadSnoc(ui, x, g, m, m');
    ToldLaterConcat(ui, [x], g, Told(log, g));
    assert [x][1..] == [];
    forall p ensures PointerLater(ui + [x], g, p, PointerOpen(log, g, p)) == Some(p in active') {
      PointerLaterConcat(ui, [x], g, p, PointerOpen(log, g, p));
    }
  }

  /** Cancelling some of the active pointers, one after the other. */
  lemma {:induction false} CancelPointers(ui: seq<UiItem>, log: seq<Delivery>, g: nat, active: set<nat>, ps: seq<nat>,
                                          always: bool, left: set<nat>)
    requires PointersMatch(ui, log, g, active)
    requires (forall p | p in ps :: p in active) && (forall i, j | 0 <= i < j < |ps| :: ps[i] < ps[j])
    requires left == active - set p | p in ps
    ensures PointersMatch(ui + Cancels(g, ps, always), log, g, left)
    decreases |ps|
  {
    if ps == [] {
      assert ui + [] == ui && left == active;
    } else {
      var x := Invoke(g, Pointer(ps[0], Cancel), always);
      assert [x][1..] == [];
      forall p ensures PointerLater(ui + [x], g, p, PointerOpen(log, g, p)) == Some(p in active - {ps[0]}) {
        PointerLaterConcat(ui, [x], g, p, PointerOpen(log, g, p));
      }
      CancelPointers(ui + [x], log, g, active - {ps[0]}, ps[1..], always, left);
      Associate(ui, [x], Cancels(g, ps[1..], always));
    }
  }

  lemma {:induction false} CancelsNeutral(ui: seq<UiItem>, log: seq<Delivery>, g: nat, m: Metrics, ps: seq<nat>,
                                          always: bool)
    requires FramesAhead(ui, g, m)
    ensures FramesAhead(ui + Cancels(g, ps, always), g, m)
    ensures ToldLater(ui + Cancels(g, ps, always), g, Told(log, g)) == ToldLater(ui, g, Told(log, g))
    ensures FrameItems(Cancels(g, ps, always)) == []
    ensures forall i | i in Cancels(g, ps, always) :: i.Invoke? && i.delegate == g && i.call.Pointer?
    decreases |ps|
  {
    if ps == [] {
      assert ui + [] == ui;
    } else {
      var x := Invoke(g, Pointer(ps[0], Cancel), always);
      FramesAheadSnoc(ui, x, g, m, m);
      ToldLaterConcat(ui, [x], g, Told(log, g));
      assert [x][1..] == [];
      CancelsNeutral(ui + [x], log, g, m, ps[1..], always);
      Associate(ui, [x], Cancels(g, ps[1..], always));
    }
  }

  /** A delegate generation that has never been used starts clean. */
  lemma {:induction false} FreshLog(log: seq<Delivery>, g: nat, p: nat)
    requires forall d | d in log :: d.delegate < g
    ensures PointerOpen(log, g, p) == Some(false) && Told(log, g) == None
  {
    if log != [] {
      assert log[|log| - 1] in log;
      FreshLog(log[..|log| - 1], g, p);
    }
  }

  lemma {:induction false} FreshQueue(ui: seq<UiItem>, g: nat, m: Metrics, p: nat)
    requires forall i | i in ui :: !i.FrameDone? ==> i.delegate < g
    ensures PointerLater(ui, g, p, Some(false)) == Some(false) && ToldLater(ui, g, None) == None
            && FramesAhead(ui, g, m)
  {
    if ui != [] {
      assert ui[0] in ui;
      FreshQueue(ui[1..], g, m, p);
    }
  }

  // ---------------------------------------------------------------- steps

  /** Enough to shut down safely: the pointer streams in the queue match the active set. */
  ghost predicate Stoppable(w: Window) {
    && Base(w) && w.running && Quiet(w)
    && (w.alive ==> PointersMatch(w.ui, w.delivered, w.delegate, w.activePointers))
  }

  lemma ShutdownQueue(w: Window)
    requires Stoppable(w)
    ensures var g, n := w.delegate, |w.ui + Cancels(w.delegate, Sorted(w.activePointers), true)|;
            var ui := Shutdown(w, Accepted).ui;
            && |ui| == n + 2 && ui[n..] == [Invoke(g, ShuttingDown, true), ShutdownDone(g)]
            && (forall i | i in ui :: ItemOk(i, g)) && (forall i | i in ui[..n] :: !ShutdownItem(i))
            && (w.alive ==> PointersMatch(ui[..n], w.delivered, g, {}))
  {
    var g, cancels := w.delegate, Cancels(w.delegate, Sorted(w.activePointers), true);
    var ui, n := Shutdown(w, Accepted).ui, |w.ui + cancels|;
    assert ui[..n] == w.ui + cancels;
    CancelsNeutral([], w.delivered, g, w.metrics, Sorted(w.activePointers), true);
    if w.alive {
      CancelPointers(w.ui, w.delivered, g, w.activePointers, Sorted(w.activePointers), true, {});
    }
  }

  lemma ShutdownOk(w: Window, post: Post)
    requires Stoppable(w)
    ensures Inv(Shutdown(w, post))
  {
    if post.Accepted? {
      ShutdownQueue(w);
    } else {
      forall i | i in w.ui ensures ItemOk(i, Bump(w.delegate)) { assert ItemOk(i, w.delegate); }
    }
  }

  lemma FinishOk(w: Window, cancel: bool, generation: Option<nat>, posts: Posts)
    requires Stoppable(w) && (!w.frame.exhausted ==> Scheduled(w) && Live(w))
    ensures Inv(Finish(w, cancel, generation, posts))
  {
    var wanted := cancel || generation.Some?;
    if wanted && posts.control.Refused? {
      ShutdownOk(w, posts.shutdown);
    } else {
      var sent := if wanted then w.(control := w.control + [ControlTask(cancel, generation)]) else w;
      if w.frame.exhausted {
        assert Stoppable(sent.(frame := sent.frame.(exhausted := false)));
        ShutdownOk(sent.(frame := sent.frame.(exhausted := false)), posts.shutdown);
      }
    }
  }

  /** Arming keeps everything but the flags, and completes the schedule unless the counter is spent. */
  lemma ArmOk(w: Window)
    requires w.running && !(w.frame.armed && w.frame.delivering) && (w.frame.armed ==> w.frame.demand) && PulsesOk(w)
    ensures PulsesOk(Arm(w)) && (!Arm(w).frame.exhausted ==> Scheduled(Arm(w)))
  {
  }

  /** Only flags and attributes changed: same queue, same history, same delegate and pointers. */
  predicate SameQueue(w: Window, v: Window) {
    v == w.(metrics := v.metrics, visible := v.visible, focused := v.focused, surface := v.surface,
            frame := v.frame)
    && v.frame == w.frame.(demand := v.frame.demand, armed := v.frame.armed, exhausted := v.frame.exhausted,
                           generation := v.frame.generation)
  }

  /** Invalidation disarms, and renews the demand of a frame in delivery. */
  lemma InvalidateFlags(w: Window, v: Window)
    requires Scheduled(w) && PulsesOk(w) && FrameQueued(w) && w.running
             && v == Invalidate(w.(metrics := v.metrics, visible := v.visible, focused := v.focused,
                                   surface := v.surface))
    ensures SameQueue(w, v) && PulsesOk(v) && FrameQueued(v) && !v.frame.armed && (w.frame.armed ==> v.frame.demand)
    ensures !v.frame.exhausted && !(v.visible && v.surface == Available) ==> Scheduled(v)
  {
  }

  /** Arming after an attribute change, when the frame in delivery stays accounted for. */
  lemma ArmFlags(w: Window, v: Window)
    requires SameQueue(w, v) && PulsesOk(v) && FrameQueued(v) && v.running
    requires !(v.frame.armed && v.frame.delivering) && (v.frame.armed ==> v.frame.demand)
    ensures SameQueue(w, Arm(v)) && PulsesOk(Arm(v)) && FrameQueued(Arm(v))
            && (!Arm(v).frame.exhausted ==> Scheduled(Arm(v)))
  {
  }

  /** A surface that comes back finds the frame in delivery, if any, already marked stale. */
  lemma SurfaceBack(w: Window, metrics: Metrics)
    requires FrameQueued(w) && w.surface != Available
    ensures FrameQueued(w.(surface := Available, metrics := metrics))
  {
  }

  lemma StopOk(w: Window, v: Window, post: Post)
    requires Inv(w) && w.running && SameQueue(w, v) && PulsesOk(v)
    ensures Inv(Shutdown(v, post))
  {
    assert Stoppable(v);
    ShutdownOk(v, post);
  }

  /** Queue one more callback after an attribute change, and finish the entry point. */
  lemma TellOk(w: Window, v: Window, x: UiItem, active: set<nat>, cancel: bool, generation: Option<nat>, posts: Posts)
    requires Inv(w) && w.running && SameQueue(w, v) && PulsesOk(v) && FrameQueued(v)
    requires !v.frame.exhausted ==> Scheduled(v)
    requires x.Invoke? && !ShutdownItem(x) && ItemOk(x, w.delegate)
    requires Announces(x, w.delegate, w.metrics, w.activePointers, v.metrics, active)
    ensures Inv(Finish(v.(ui := w.ui + [x], activePointers := active), cancel, generation, posts))
  {
    var next := v.(ui := w.ui + [x], activePointers := active);
    if w.alive {
      Push(w.ui, w.delivered, w.delegate, w.metrics, w.activePointers, x, v.metrics, active);
    }
    FrameItemsConcat(w.ui, [x]);
    assert [x][1..] == [];
    assert FrameItems(next.ui) == FrameItems(w.ui);
    FinishOk(next, cancel, generation, posts);
  }

  function Bound(w: Window, alive: bool): Window {
    w.(delegate := w.delegate + 1, alive := alive, activePointers := {})
  }

  lemma BoundItems(w: Window)
    requires Inv(w)
    ensures forall i | i in w.ui :: ItemOk(i, w.delegate + 1) && (!i.FrameDone? ==> i.delegate < w.delegate + 1)
  {
    forall i | i in w.ui ensures ItemOk(i, w.delegate + 1) && (!i.FrameDone? ==> i.delegate < w.delegate + 1) {
      assert ItemOk(i, w.delegate);
    }
  }

  lemma BindRefused(w: Window, alive: bool, post: Post)
    requires Inv(w) && w.running
    ensures Inv(Shutdown(Bound(w, alive), post))
  {
    var g := w.delegate + 1;
    BoundItems(w);
    forall p ensures PointerLater(w.ui, g, p, PointerOpen(w.delivered, g, p)) == Some(false) {
      FreshLog(w.delivered, g, p);
      FreshQueue(w.ui, g, w.metrics, p);
    }
    assert Stoppable(Bound(w, alive));
    ShutdownOk(Bound(w, alive), post);
  }

  /** The queue and history changed hands; the rest of the invariant speaks of the same frames. */
  lemma BoundLive(w: Window, v: Window)
    requires Inv(w) && w.running && v == w.(delegate := v.delegate, alive := v.alive, activePointers := {}, ui := v.ui)
    requires v.delegate == w.delegate + 1 && FrameItems(v.ui) == FrameItems(w.ui)
    requires forall i | i in v.ui :: ItemOk(i, v.delegate) && !ShutdownItem(i)
    requires QueueOk(v.ui, v.delivered, v.delegate, v.metrics, {})
    ensures Inv(v)
  {
    assert FrameQueued(v);
    assert Base(v);
  }

  lemma BindCreates(w: Window, alive: bool)
    requires Inv(w) && w.running
    ensures Inv(Bound(w, alive).(ui := w.ui + [Invoke(w.delegate + 1, Created(w.metrics), false)]))
  {
    var x := Invoke(w.delegate + 1, Created(w.metrics), false);
    var v := Bound(w, alive).(ui := w.ui + [x]);
    BoundItems(w);
    CreatedQueue(w.ui, w.delivered, w.delegate + 1, w.metrics);
    FrameItemsConcat(w.ui, [x]);
    assert [x][1..] == [];
    BoundLive(w, v);
  }

  lemma BindOk(w: Window, alive: bool, posts: Posts)
    requires Inv(w)
    ensures Inv(Bind(w, alive, posts))
  {
    if w.running && w.delegate != MAX_U64 {
      if posts.ui.Refused? {
        BindRefused(w, alive, posts.shutdown);
      } else {
        var g, queue := w.delegate + 1, w.ui + [Invoke(w.delegate + 1, Created(w.metrics), false)];
        BindCreates(w, alive);
        if w.visible { Tell(Bound(w, alive).(ui := queue), Invoke(g, VisibilityChanged(true), false)); }
        assert queue + [] == queue;
      }
    }
  }

  /** A fresh delegate's queue starts with the metrics of the moment. */
  lemma CreatedQueue(ui: seq<UiItem>, log: seq<Delivery>, g: nat, m: Metrics)
    requires (forall i | i in ui :: !i.FrameDone? ==> i.delegate < g) && (forall d | d in log :: d.delegate < g)
    ensures QueueOk(ui + [Invoke(g, Created(m), false)], log, g, m, {})
  {
    var x := Invoke(g, Created(m), false);
    assert [x][1..] == [];
    FreshLog(log, g, 0);
    FreshQueue(ui, g, m, 0);
    ToldLaterConcat(ui, [x], g, None);
    CreatedAhead(ui, x, g, m);
    forall p ensures PointerLater(ui + [x], g, p, PointerOpen(log, g, p)) == Some(false) {
      FreshLog(log, g, p);
      FreshQueue(ui, g, m, p);
      PointerLaterConcat(ui, [x], g, p, Some(false));
    }
  }

  lemma {:induction false} CreatedAhead(ui: seq<UiItem>, x: UiItem, g: nat, m: Metrics)
    requires (forall i | i in ui :: !i.FrameDone? ==> i.delegate < g) && x.Invoke?
    ensures FramesAhead(ui + [x], g, m)
  {
    if ui == [] {
      assert ui + [x] == [x];
    } else {
      assert (ui + [x])[1..] == ui[1..] + [x];
      assert ui[0] in ui;
      CreatedAhead(ui[1..], x, g, m);
    }
  }

  predicate Neutral(x: UiItem, g: nat) {
    x.Invoke? && x.delegate == g &&
    (x.call.VisibilityChanged? || x.call.FocusChanged? || x.call.SurfaceChanged? || x.call.Other?)
  }

  lemma Tell(w: Window, x: UiItem)
    requires Inv(w) && w.running && Neutral(x, w.delegate)
    ensures Inv(w.(ui := w.ui + [x]))
  {
    TellOk(w, w, x, w.activePointers, false, None, Posts(Accepted, Accepted, Accepted));
  }

  lemma UnbindOk(w: Window, delegate: nat)
    requires Inv(w)
    ensures Inv(Unbind(w, delegate))
  {
    forall i | i in w.ui ensures ItemOk(i, Bump(w.delegate)) { assert ItemOk(i, w.delegate); }
    assert w.running ==> FrameQueued(Unbind(w, delegate));
  }

  lemma RequestFrameOk(w: Window, posts: Posts)
    requires Inv(w)
    ensures Inv(RequestFrame(w, posts))
  {
    if w.running {
      var demanded := w.(frame := w.frame.(demand := true));
      ArmOk(demanded);
      assert FrameQueued(Arm(demanded)) && Stoppable(Arm(demanded));
      FinishOk(Arm(demanded), false, ArmedGeneration(demanded), posts);
    }
  }

  lemma ChangedFlags(w: Window, metrics: Metrics)
    requires Scheduled(w) && PulsesOk(w) && FrameQueued(w) && w.running
    ensures var v := Arm(Invalidate(w.(metrics := metrics)));
            SameQueue(w, v) && v.metrics == metrics && PulsesOk(v) && FrameQueued(v)
                && (!v.frame.exhausted ==> Scheduled(v))
  {
    var changed := Invalidate(w.(metrics := metrics));
    InvalidateFlags(w, changed);
    ArmFlags(w, changed);
  }

  lemma ChangeMetricsOk(w: Window, metrics: Metrics, posts: Posts)
    requires Inv(w) && w.running && w.metrics.generation < metrics.generation
    ensures Inv(ChangeMetrics(w, metrics, posts))
  {
    var changed := Invalidate(w.(metrics := metrics));
    ChangedFlags(w, metrics);
    if posts.ui.Refused? {
      StopOk(w, Arm(changed), posts.shutdown);
    } else {
      TellOk(w, Arm(changed), Invoke(w.delegate, MetricsChanged(metrics), false), w.activePointers,
             w.frame.armed, ArmedGeneration(changed), posts);
    }
  }

  lemma SetMetricsOk(w: Window, shape: Shape, posts: Posts)
    requires Inv(w)
    ensures Inv(SetMetrics(w, shape, posts))
  {
    if w.running { ChangeMetricsOk(w, Metrics(shape, w.metrics.generation + 1), posts); }
  }

  lemma SetVisibleOk(w: Window, visible: bool, posts: Posts)
    requires Inv(w)
    ensures Inv(SetVisible(w, visible, posts))
  {
    if w.running && w.visible != visible {
      if visible {
        var shown := w.(visible := true);
        ArmOk(shown);
        if posts.ui.Refused? {
          StopOk(w, Arm(shown), posts.shutdown);
        } else {
          TellOk(w, Arm(shown), Invoke(w.delegate, VisibilityChanged(true), false), w.activePointers,
                 false, ArmedGeneration(shown), posts);
        }
      } else {
        HideOk(w, posts);
      }
    }
  }

  lemma SortedIs(s: set<nat>)
    ensures SortedFrom(Sorted(s), s)
  {
    SortedExists(s);
  }

  /** Cancelling every active pointer leaves the queue in order and no pointer active. */
  lemma CancelAllOk(w: Window)
    requires Inv(w) && w.running
    ensures Inv(w.(ui := w.ui + Cancels(w.delegate, Sorted(w.activePointers), false), activePointers := {}))
  {
    if w.alive { CancelQueue(w); }
    CancelItems(w.ui, w.delegate, Sorted(w.activePointers));
    RequeuedOk(w, w.(ui := w.ui + Cancels(w.delegate, Sorted(w.activePointers), false), activePointers := {}));
  }

  lemma CancelItems(ui: seq<UiItem>, g: nat, ps: seq<nat>)
    requires forall i | i in ui :: ItemOk(i, g) && !ShutdownItem(i)
    ensures FrameItems(ui + Cancels(g, ps, false)) == FrameItems(ui)
    ensures forall i | i in ui + Cancels(g, ps, false) :: ItemOk(i, g) && !ShutdownItem(i)
  {
    CancelsNeutral([], [], g, Metrics(Shape(0.0, 0.0, 0, 0, 1.0), 0), ps, false);
    FrameItemsConcat(ui, Cancels(g, ps, false));
  }

  lemma CancelQueue(w: Window)
    requires QueueOk(w.ui, w.delivered, w.delegate, w.metrics, w.activePointers)
    ensures QueueOk(w.ui + Cancels(w.delegate, Sorted(w.activePointers), false), w.delivered, w.delegate, w.metrics, {})
  {
    SortedIs(w.activePointers);
    CancelsNeutral(w.ui, w.delivered, w.delegate, w.metrics, Sorted(w.activePointers), false);
    CancelPointers(w.ui, w.delivered, w.delegate, w.activePointers, Sorted(w.activePointers), false, {});
  }

  /** Only the queue and the pointers it announces changed, and no frame task. */
  lemma RequeuedOk(w: Window, v: Window)
    requires Inv(w) && w.running && v == w.(ui := v.ui, activePointers := v.activePointers)
             && FrameItems(v.ui) == FrameItems(w.ui)
    requires forall i | i in v.ui :: ItemOk(i, v.delegate) && !ShutdownItem(i)
    requires v.alive ==> QueueOk(v.ui, v.delivered, v.delegate, v.metrics, v.activePointers)
    ensures Inv(v)
  {
    assert FrameQueued(v);
    assert Base(v);
  }

  lemma HideOk(w: Window, posts: Posts)
    requires Inv(w) && w.running && w.visible
    ensures Inv(SetVisible(w, false, posts))
  {
    var hidden := Invalidate(w.(visible := false, focused := false));
    InvalidateFlags(w, hidden);
    if posts.ui.Refused? {
      StopOk(w, hidden, posts.shutdown);
    } else {
      var cancels := Cancels(w.delegate, Sorted(w.activePointers), false);
      var focus := if w.focused then [Invoke(w.delegate, FocusChanged(false), false)] else [];
      CancelAndBlur(w);
      var w2 := w.(ui := w.ui + cancels + focus, activePointers := {});
      TellOk(w2, hidden.(ui := w2.ui, activePointers := {}), Invoke(w.delegate, VisibilityChanged(false), false), {},
             w.frame.armed, None, posts);
    }
  }

  lemma CancelAndBlur(w: Window)
    requires Inv(w) && w.running
    ensures var focus := if w.focused then [Invoke(w.delegate, FocusChanged(false), false)] else [];
            Inv(w.(ui := w.ui + Cancels(w.delegate, Sorted(w.activePointers), false) + focus, activePointers := {}))
  {
    CancelAllOk(w);
    var w1 := w.(ui := w.ui + Cancels(w.delegate, Sorted(w.activePointers), false), activePointers := {});
    if w.focused { Tell(w1, Invoke(w.delegate, FocusChanged(false), false)); } else { assert w1.ui + [] == w1.ui; }
  }

  lemma BlurOk(w: Window, posts: Posts)
    requires Inv(w) && w.running && w.focused && posts.ui.Accepted?
    ensures Inv(SetFocused(w, false, posts))
  {
    CancelAllOk(w);
    var w1 := w.(ui := w.ui + Cancels(w.delegate, Sorted(w.activePointers), false), activePointers := {});
    TellOk(w1, w1.(focused := false), Invoke(w.delegate, FocusChanged(false), false), {}, false, None, posts);
  }

  lemma SetFocusedOk(w: Window, focused: bool, posts: Posts)
    requires Inv(w)
    ensures Inv(SetFocused(w, focused, posts))
  {
    if w.running && w.focused != focused && !(focused && !w.visible) {
      if posts.ui.Refused? {
        StopOk(w, w.(focused := focused), posts.shutdown);
      } else if focused {
        assert w.ui + [] == w.ui;
        TellOk(w, w.(focused := focused), Invoke(w.delegate, FocusChanged(focused), false), w.activePointers, false,
               None, posts);
      } else {
        BlurOk(w, posts);
      }
    }
  }

  lemma FramePulseOk(w: Window, timestamp: int, generation: nat, posts: Posts)
    requires Inv(w)
    ensures Inv(FramePulse(w, timestamp, generation, posts))
  {
    if w.running && w.frame.armed && w.frame.generation == generation && w.visible && w.surface == Available &&
       timestamp >= 0 && (w.frame.lastTimestamp.Some? ==> timestamp >= w.frame.lastTimestamp.value) {
      if w.frame.nextSequence == MAX_U64 {
        StopOk(w, w.(frame := w.frame.(armed := false)), posts.shutdown);
      } else {
        PulseTaken(w, timestamp, posts);
      }
    }
  }

  function Taken(w: Window, timestamp: int): Window {
    w.(frame := TakePulse(w.frame, timestamp))
  }

  lemma TakenBase(w: Window, timestamp: int)
    requires Base(w) && w.frame.armed && (w.frame.lastTimestamp.Some? ==> timestamp >= w.frame.lastTimestamp.value)
    ensures Base(Taken(w, timestamp))
  {
    assert forall i | 0 <= i < |w.frame.pulses| :: w.frame.pulses[i] in w.frame.pulses;
  }

  lemma PulseQueue(w: Window, r: FrameRequest)
    requires w.alive ==> QueueOk(w.ui, w.delivered, w.delegate, w.metrics, w.activePointers)
    requires FrameQueued(w) && !w.frame.delivering && r.metrics == w.metrics
    ensures w.alive ==> QueueOk(w.ui + [FrameCall(w.delegate, r), FrameDone], w.delivered, w.delegate, w.metrics,
                                w.activePointers)
    ensures FrameItems(w.ui + [FrameCall(w.delegate, r), FrameDone]) == [FrameCall(w.delegate, r), FrameDone]
  {
    var x := FrameCall(w.delegate, r);
    assert w.ui + [x, FrameDone] == w.ui + [x] + [FrameDone];
    if w.alive {
      Push(w.ui, w.delivered, w.delegate, w.metrics, w.activePointers, x, w.metrics, w.activePointers);
      Push(w.ui + [x], w.delivered, w.delegate, w.metrics, w.activePointers, FrameDone, w.metrics, w.activePointers);
    }
    FrameItemsConcat(w.ui, [x, FrameDone]);
    assert [x, FrameDone][1..] == [FrameDone] && [FrameDone][1..] == [];
  }

  lemma PulseTaken(w: Window, timestamp: int, posts: Posts)
    requires Inv(w) && w.running && w.frame.armed && w.visible && w.surface == Available
             && w.frame.nextSequence != MAX_U64
    requires timestamp >= 0 && (w.frame.lastTimestamp.Some? ==> timestamp >= w.frame.lastTimestamp.value)
    ensures Inv(FramePulse(w, timestamp, w.frame.generation, posts))
  {
    TakenBase(w, timestamp);
    if posts.ui.Refused? {
      assert Stoppable(Taken(w, timestamp));
      ShutdownOk(Taken(w, timestamp), posts.shutdown);
    } else {
      PulseDelivering(w, timestamp);
    }
  }

  lemma PulseDelivering(w: Window, timestamp: int)
    requires Inv(w) && w.running && w.frame.armed && w.visible && w.surface == Available
    requires timestamp >= 0 && (w.frame.lastTimestamp.Some? ==> timestamp >= w.frame.lastTimestamp.value)
    ensures var r := FrameRequest(w.metrics, timestamp, w.frame.nextSequence);
            Inv(Taken(w, timestamp).(ui := w.ui + [FrameCall(w.delegate, r), FrameDone]))
  {
    TakenBase(w, timestamp);
    var r := FrameRequest(w.metrics, timestamp, w.frame.nextSequence);
    PulseQueue(w, r);
    assert FramesBefore(w.delivered, r);
  }

  lemma SendPointerOk(w: Window, id: nat, phase: Phase, finite: bool, posts: Posts)
    requires Inv(w)
    ensures Inv(SendPointer(w, id, phase, finite, posts))
  {
    if w.running && w.visible && finite && PointerAccepted(w, id, phase) {
      if posts.ui.Refused? {
        StopOk(w, w, posts.shutdown);
      } else {
        var v := SendPointer(w, id, phase, finite, posts);
        TellOk(w, w, Invoke(w.delegate, Pointer(id, phase), false), v.activePointers, false, None, posts);
      }
    }
  }

  lemma NotifyOk(w: Window, posts: Posts)
    requires Inv(w)
    ensures Inv(Notify(w, posts))
  {
    if w.running {
      if posts.ui.Refused? {
        StopOk(w, w, posts.shutdown);
      } else {
        Tell(w, Invoke(w.delegate, Other, false));
      }
    }
  }

  lemma SurfaceQueue(w: Window, next: Window)
    requires Inv(w) && w.running && w.alive
    requires next.metrics == w.metrics || next.metrics == w.metrics.(generation := w.metrics.generation + 1)
    ensures QueueOk(w.ui + SurfaceItems(w, next), w.delivered, w.delegate, next.metrics, w.activePointers)
  {
    var g, m := w.delegate, next.metrics;
    var x, y := Invoke(g, MetricsChanged(m), false), Invoke(g, SurfaceChanged(next.surface, m.generation), false);
    if m == w.metrics {
      EmptyPrefix([y]);
      Push(w.ui, w.delivered, g, m, w.activePointers, y, m, w.activePointers);
    } else {
      Push(w.ui, w.delivered, g, w.metrics, w.activePointers, x, m, w.activePointers);
      Push(w.ui + [x], w.delivered, g, m, w.activePointers, y, m, w.activePointers);
      Associate(w.ui, [x], [y]);
    }
  }

  lemma SurfaceItemsPlain(w: Window, next: Window)
    ensures var items := SurfaceItems(w, next);
            && FrameItems(w.ui + items) == FrameItems(w.ui)
            && (forall i | i in items ::
                  i.Invoke? && i.delegate == w.delegate && !ShutdownItem(i) && !i.call.FrameRequested?)
  {
    var items := SurfaceItems(w, next);
    FrameItemsConcat(w.ui, items);
    NoFrames(items);
  }

  lemma {:induction false} NoFrames(items: seq<UiItem>)
    requires forall i | i in items :: i.Invoke?
    ensures FrameItems(items) == []
  {
    if items != [] {
      assert items[0] in items;
      NoFrames(items[1..]);
    }
  }

  lemma TellSurfaceOk(w: Window, next: Window, cancel: bool, generation: Option<nat>, posts: Posts)
    requires Inv(w) && w.running && SameQueue(w, next) && PulsesOk(next) && FrameQueued(next)
    requires !next.frame.exhausted ==> Scheduled(next)
    requires next.metrics == w.metrics || next.metrics == w.metrics.(generation := w.metrics.generation + 1)
    ensures Inv(TellSurface(w, next, cancel, generation, posts))
  {
    if posts.ui.Refused? {
      StopOk(w, next, posts.shutdown);
    } else {
      var told := next.(ui := w.ui + SurfaceItems(w, next));
      SurfaceItemsPlain(w, next);
      if w.alive { SurfaceQueue(w, next); }
      assert Stoppable(told);
      FinishOk(told, cancel, generation, posts);
    }
  }

  lemma SurfaceReturns(w: Window, metrics: Metrics, posts: Posts)
    requires Inv(w) && w.running && w.surface != Available
             && metrics == w.metrics.(generation := w.metrics.generation + 1)
    ensures var moved := w.(surface := Available, metrics := metrics);
            Inv(TellSurface(w, Arm(moved), false, ArmedGeneration(moved), posts))
  {
    var moved := w.(surface := Available, metrics := metrics);
    SurfaceBack(w, metrics);
    ArmFlags(w, moved);
    TellSurfaceOk(w, Arm(moved), false, ArmedGeneration(moved), posts);
  }

  lemma SurfaceGone(w: Window, surface: Surface, metrics: Metrics, posts: Posts)
    requires Inv(w) && w.running && surface != Available
    requires metrics == w.metrics || metrics == w.metrics.(generation := w.metrics.generation + 1)
    ensures Inv(TellSurface(w, Invalidate(w.(surface := surface, metrics := metrics)), w.frame.armed, None, posts))
  {
    var gone := Invalidate(w.(surface := surface, metrics := metrics));
    InvalidateFlags(w, gone);
    TellSurfaceOk(w, gone, w.frame.armed, None, posts);
  }

  lemma MoveSurfaceOk(w: Window, surface: Surface, metrics: Metrics, posts: Posts)
    requires Inv(w) && w.running && w.surface != surface
    requires metrics == if surface.OutOfDate? || surface.Available? then
                          w.metrics.(generation := w.metrics.generation + 1)
                        else w.metrics
    ensures Inv(MoveSurface(w, surface, metrics, posts))
  {
    if surface.Available? {
      SurfaceReturns(w, metrics, posts);
    } else {
      SurfaceGone(w, surface, metrics, posts);
    }
  }

  lemma SetSurfaceOk(w: Window, surface: Surface, posts: Posts)
    requires Inv(w)
    ensures Inv(SetSurface(w, surface, posts))
  {
    var renewed := surface.OutOfDate? || surface.Available?;
    if !w.running || w.surface == surface {
      assert SetSurface(w, surface, posts) == w;
    } else if renewed && w.metrics.generation == MAX_U64 {
      assert SetSurface(w, surface, posts) == Shutdown(w, posts.shutdown);
      StopOk(w, w, posts.shutdown);
    } else {
      var metrics := if renewed then w.metrics.(generation := w.metrics.generation + 1) else w.metrics;
      assert SetSurface(w, surface, posts) == MoveSurface(w, surface, metrics, posts);
      MoveSurfaceOk(w, surface, metrics, posts);
    }
  }

  // ---------------------------------------------------------------- the executors

  lemma {:induction false} BadStays(ui: seq<UiItem>, g: nat, p: nat)
    ensures PointerLater(ui, g, p, None) == None
  {
    if ui != [] { BadStays(ui[1..], g, p); }
  }

  lemma LastOf(log: seq<Delivery>, d: Delivery)
    ensures (log + [d])[..|log + [d]| - 1] == log && (log + [d])[|log + [d]| - 1] == d
  {
  }

  /** Delivering the callback at the head moves it from the queued streams to the delivered ones. */
  lemma DeliverPointers(ui: seq<UiItem>, log: seq<Delivery>, g: nat, active: set<nat>)
    requires ui != [] && ui[0].Invoke? && ui[0].delegate == g && PointersMatch(ui, log, g, active)
    ensures PointersMatch(ui[1..], log + [Delivery(g, ui[0].call)], g, active)
    ensures ui[0].call.Pointer? ==> Next(PointerOpen(log, g, ui[0].call.id), ui[0].call.phase).Some?
  {
    var d := Delivery(g, ui[0].call);
    LastOf(log, d);
    if d.call.Pointer? { BadStays(ui[1..], g, d.call.id); }
    forall p ensures PointerLater(ui[1..], g, p, PointerOpen(log + [d], g, p)) == Some(p in active) {
      assert PointerLater(ui, g, p, PointerOpen(log, g, p)) == Some(p in active);
    }
  }

  /** An item for somebody else, or no callback at all, leaves the streams alone. */
  lemma SkipPointers(ui: seq<UiItem>, log: seq<Delivery>, g: nat, active: set<nat>)
    requires ui != [] && PointersMatch(ui, log, g, active) && (ui[0].Invoke? ==> ui[0].delegate != g)
    ensures PointersMatch(ui[1..], log, g, active)
  {
    forall p ensures PointerLater(ui[1..], g, p, PointerOpen(log, g, p)) == Some(p in active) {
      assert PointerLater(ui, g, p, PointerOpen(log, g, p)) == Some(p in active);
    }
  }

  lemma SkipQueue(ui: seq<UiItem>, log: seq<Delivery>, g: nat, m: Metrics, active: set<nat>)
    requires ui != [] && QueueOk(ui, log, g, m, active) && (ui[0].Invoke? ==> ui[0].delegate != g)
    ensures QueueOk(ui[1..], log, g, m, active)
  {
    SkipPointers(ui, log, g, active);
  }

  lemma DeliverQueue(ui: seq<UiItem>, log: seq<Delivery>, g: nat, m: Metrics, active: set<nat>)
    requires ui != [] && ui[0].Invoke? && ui[0].delegate == g && QueueOk(ui, log, g, m, active)
    ensures QueueOk(ui[1..], log + [Delivery(g, ui[0].call)], g, m, active)
  {
    DeliverPointers(ui, log, g, active);
    LastOf(log, Delivery(g, ui[0].call));
  }

  /** A frame callback says nothing about metrics or pointers. */
  lemma FrameKeepsQueue(ui: seq<UiItem>, log: seq<Delivery>, g: nat, m: Metrics, active: set<nat>, r: FrameRequest)
    requires QueueOk(ui, log, g, m, active)
    ensures QueueOk(ui, log + [Delivery(g, FrameRequested(r))], g, m, active)
  {
    var d := Delivery(g, FrameRequested(r));
    LastOf(log, d);
    forall p ensures PointerLater(ui, g, p, PointerOpen(log + [d], g, p)) == Some(p in active) {
      assert PointerLater(ui, g, p, PointerOpen(log, g, p)) == Some(p in active);
    }
  }

  /** Appending an allowed callback that is no frame. */
  lemma BaseDelivered(w: Window, d: Delivery)
    requires Base(w) && d.delegate == w.delegate && Allowed(w.delivered, d)
    requires d.call.FrameRequested? ==>
               d.call.request.sequence < w.frame.nextSequence && w.frame.lastTimestamp == Some(d.call.request.timestamp)
    ensures Base(w.(delivered := w.delivered + [d]))
  {
    LastOf(w.delivered, d);
    var log := w.delivered + [d];
    forall e | e in log ensures e in w.delivered || e == d { }
  }

  lemma BasePopped(w: Window)
    requires Base(w) && w.ui != []
    ensures Base(w.(ui := w.ui[1..]))
  {
  }

  lemma InvokeRunning(w: Window, posts: Posts)
    requires Inv(w) && w.running && w.ui != [] && w.ui[0].Invoke?
    ensures Inv(RunUi(w, posts))
  {
    var x, popped := w.ui[0], w.(ui := w.ui[1..]);
    assert x in w.ui;
    assert FrameItems(w.ui) == FrameItems(popped.ui);
    if Reaches(popped, x.delegate, x.always) {
      InvokeReaches(w);
    } else {
      BasePopped(w);
      if w.alive { SkipQueue(w.ui, w.delivered, w.delegate, w.metrics, w.activePointers); }
      assert FrameQueued(popped) && Quiet(popped);
    }
  }

  lemma InvokeReaches(w: Window)
    requires Inv(w) && w.running && w.ui != [] && w.ui[0].Invoke? && w.ui[0].delegate == w.delegate && w.alive
    ensures Inv(w.(ui := w.ui[1..], delivered := w.delivered + [Delivery(w.delegate, w.ui[0].call)]))
  {
    var d, popped := Delivery(w.delegate, w.ui[0].call), w.(ui := w.ui[1..]);
    assert w.ui[0] in w.ui;
    DeliverPointers(w.ui, w.delivered, w.delegate, w.activePointers);
    DeliverQueue(w.ui, w.delivered, w.delegate, w.metrics, w.activePointers);
    BasePopped(w);
    BaseDelivered(popped, d);
    assert FrameItems(w.ui) == FrameItems(popped.ui);
    assert FrameQueued(popped.(delivered := w.delivered + [d]));
  }

  /** A delivered frame carries the metrics its delegate knows. */
  lemma FrameAllowed(w: Window)
    requires Inv(w) && w.running && w.alive && w.ui != [] && w.ui[0].FrameCall? && w.ui[0].delegate == w.delegate
    requires FrameCurrent(w, w.ui[0].request)
    ensures Allowed(w.delivered, Delivery(w.delegate, FrameRequested(w.ui[0].request)))
  {
    ToldLaterNothing(w.ui[1..], w.delegate, Told(w.delivered, w.delegate));
    assert FrameItems(w.ui)[0] == w.ui[0];
  }

  lemma FrameItemsHead(ui: seq<UiItem>)
    requires ui != [] && (ui[0].FrameCall? || ui[0].FrameDone?)
    ensures FrameItems(ui) != [] && FrameItems(ui)[0] == ui[0] && FrameItems(ui[1..]) == FrameItems(ui)[1..]
  {
  }

  lemma FrameRunning(w: Window, posts: Posts)
    requires Inv(w) && w.running && w.ui != [] && w.ui[0].FrameCall?
    ensures Inv(RunUi(w, posts))
  {
    var r, popped := w.ui[0].request, w.(ui := w.ui[1..]);
    BasePopped(w);
    FrameItemsHead(w.ui);
    if w.alive { SkipQueue(w.ui, w.delivered, w.delegate, w.metrics, w.activePointers); }
    if FrameCurrent(popped, r) && Reaches(popped, w.ui[0].delegate, false) {
      FrameAllowed(w);
      BaseDelivered(popped, Delivery(w.delegate, FrameRequested(r)));
      FrameKeepsQueue(popped.ui, w.delivered, w.delegate, w.metrics, w.activePointers, r);
    }
  }

  lemma DoneRunning(w: Window, posts: Posts)
    requires Inv(w) && w.running && w.ui != [] && w.ui[0].FrameDone?
    ensures Inv(RunUi(w, posts))
  {
    var idle := w.(ui := w.ui[1..], frame := w.frame.(delivering := false));
    BasePopped(w);
    FrameItemsHead(w.ui);
    if w.alive { SkipQueue(w.ui, w.delivered, w.delegate, w.metrics, w.activePointers); }
    ArmOk(idle);
    assert Stoppable(Arm(idle)) && FrameQueued(Arm(idle));
    FinishOk(Arm(idle), false, ArmedGeneration(idle), posts);
  }

  lemma PendingDelivered(items: seq<UiItem>, log: seq<Delivery>, g: nat)
    requires items != [] && items[0].Invoke? && items[0].delegate == g && Pending(items, log, g)
    requires !items[0].call.FrameRequested?
    ensures Pending(items[1..], log + [Delivery(g, items[0].call)], g)
    ensures Allowed(log, Delivery(g, items[0].call))
  {
    DeliverPointers(items, log, g, {});
    assert items[0] in items;
  }

  lemma PendingSkipped(items: seq<UiItem>, log: seq<Delivery>, g: nat)
    requires items != [] && (items[0].Invoke? ==> items[0].delegate != g) && Pending(items, log, g)
    ensures Pending(items[1..], log, g) && !ShutdownItem(items[0])
  {
    SkipPointers(items, log, g, {});
    assert items[0] in items;
  }

  lemma ClosingPending(w: Window, posts: Posts)
    requires Inv(w) && !w.running && w.alive && |w.ui| > 2
    ensures Inv(RunUi(w, posts))
  {
    var x, popped, n := w.ui[0], w.(ui := w.ui[1..]), |w.ui| - 2;
    DropHead(w.ui, n);
    BasePopped(w);
    assert x in w.ui;
    if x.Invoke? && x.delegate == w.delegate {
      PendingDelivered(w.ui[..n], w.delivered, w.delegate);
      BaseDelivered(popped, Delivery(x.delegate, x.call));
    } else {
      PendingSkipped(w.ui[..n], w.delivered, w.delegate);
    }
  }

  lemma ClosingNotice(w: Window, posts: Posts)
    requires Inv(w) && !w.running && w.alive && |w.ui| == 2
    ensures Inv(RunUi(w, posts))
  {
    var popped := w.(ui := w.ui[1..]);
    BasePopped(w);
    assert w.ui[0..] == w.ui && w.ui[..0] == [];
    forall p ensures PointerOpen(w.delivered, w.delegate, p) == Some(false) {
      assert PointerLater([], w.delegate, p, PointerOpen(w.delivered, w.delegate, p)) == Some(p in {});
    }
    BaseDelivered(popped, Delivery(w.delegate, ShuttingDown));
  }

  lemma RunUiOk(w: Window, posts: Posts)
    requires Inv(w)
    ensures Inv(RunUi(w, posts))
  {
    if w.ui != [] {
      assert w.ui[0] in w.ui;
      if w.running {
        match w.ui[0]
        case Invoke(_, _, _) => InvokeRunning(w, posts);
        case FrameCall(_, _) => FrameRunning(w, posts);
        case FrameDone => DoneRunning(w, posts);
        case ShutdownDone(_) =>
      } else if w.alive && |w.ui| > 2 {
        ClosingPending(w, posts);
      } else if w.alive && |w.ui| == 2 {
        ClosingNotice(w, posts);
      } else {
        StoppedOk(w, posts);
      }
    }
  }

  /** Nobody is left to call: the rest of the queue only runs out. */
  lemma StoppedOk(w: Window, posts: Posts)
    requires Inv(w) && !w.running && w.ui != [] && (w.alive ==> |w.ui| == 1)
    ensures Inv(RunUi(w, posts))
  {
    var popped := w.(ui := w.ui[1..]);
    BaseKept(w, popped);
    if w.ui[0].FrameDone? {
      CompleteStopped(popped, posts);
      StaysStopped(popped, popped.(frame := popped.frame.(delivering := false, exhausted := false)));
    } else if w.ui[0].ShutdownDone? {
      StaysStopped(popped, Release(popped, w.ui[0].delegate));
    } else {
      StaysStopped(popped, popped);
      assert RunUi(w, posts) == popped;
    }
  }

  lemma StaysStopped(w: Window, v: Window)
    requires Base(w) && !w.frame.armed && !w.running && !v.alive
    requires v == w.(frame := w.frame.(delivering := v.frame.delivering, exhausted := v.frame.exhausted),
                     deliverQueued := v.deliverQueued, alive := v.alive, delegate := v.delegate)
                         && v.delegate >= w.delegate
    ensures Inv(v)
  {
    BaseKept(w, v);
  }

  lemma CompleteStopped(w: Window, posts: Posts)
    requires !w.running
    ensures CompleteFrame(w, posts) == w.(frame := w.frame.(delivering := false, exhausted := false))
  {
  }

  /** What Base speaks of shrank or stayed. */
  lemma BaseKept(w: Window, v: Window)
    requires Base(w) && (forall i | i in v.ui :: i in w.ui) && w.delegate <= v.delegate && v.delivered == w.delivered
    requires v.frame.pulses == w.frame.pulses && v.frame.generation == w.frame.generation
             && (v.frame.armed ==> w.frame.armed)
    requires v.frame.nextSequence == w.frame.nextSequence && v.frame.lastTimestamp == w.frame.lastTimestamp
    ensures Base(v)
  {
    forall i | i in v.ui ensures ItemOk(i, v.delegate) { assert ItemOk(i, w.delegate); }
  }

  lemma RunControlOk(w: Window, fails: bool)
    requires Inv(w)
    ensures Inv(RunControl(w, fails))
  {
    BaseKept(w, RunControl(w, fails));
    if w.running { assert FrameQueued(RunControl(w, fails)) && Quiet(RunControl(w, fails)); }
  }

  // ---------------------------------------------------------------- every run

  lemma DiesOk(w: Window)
    requires Inv(w)
    ensures Inv(w.(alive := false))
  {
    BaseKept(w, w.(alive := false));
    assert w.running ==> FrameQueued(w.(alive := false));
  }

  lemma StepOk(w: Window, e: Event)
    requires Inv(w)
    ensures Inv(Step(w, e))
  {
    match e
    case BindDelegate(alive, posts) => BindOk(w, alive, posts);
    case UnbindDelegate(delegate) => UnbindOk(w, delegate);
    case DelegateDies => DiesOk(w);
    case RequestsFrame(posts) => RequestFrameOk(w, posts);
    case MetricsEvent(shape, posts) => SetMetricsOk(w, shape, posts);
    case VisibleEvent(visible, posts) => SetVisibleOk(w, visible, posts);
    case FocusEvent(focused, posts) => SetFocusedOk(w, focused, posts);
    case PulseEvent(timestamp, generation, posts) => FramePulseOk(w, timestamp, generation, posts);
    case PointerInput(id, phase, finite, posts) => SendPointerOk(w, id, phase, finite, posts);
    case SurfaceEvent(surface, posts) => SetSurfaceOk(w, surface, posts);
    case OtherEvent(posts) => NotifyOk(w, posts);
    case ShutdownEvent(post) => if w.running { StopOk(w, w, post); }
    case UiStep(posts) => RunUiOk(w, posts);
    case ControlStep(fails) => RunControlOk(w, fails);
  }

  lemma {:induction false} RunOk(shape: Shape, visible: bool, events: seq<Event>)
    ensures Inv(Run(shape, visible, events))
  {
    if events == [] {
      assert FrameQueued(Initial(shape, visible));
    } else {
      RunOk(shape, visible, events[..|events| - 1]);
      StepOk(Run(shape, visible, events[..|events| - 1]), events[|events| - 1]);
    }
  }
}
