/**
 The callbacks of one kind (src/host.cpp): which pointer phases, and which values of metrics, visibility, focus and
 surface, a bound delegate hears of, read off the events since it was bound.
 */
module WindowCallbacks {
  import opened Common
  import opened WindowProtocol
  import opened WindowRuns
  import opened WindowGuarantees
  import opened WindowStreams
  import opened WindowReports

  // ---------------------------------------------------------------- one kind of callback at a time

  /** The calls of one kind, in order. */
  function Pick<T>(calls: seq<Call>, kind: Call -> Option<T>): seq<T> {
    if calls == [] then []
    else
      Pick(calls[..|calls| - 1], kind)
      + (match kind(calls[|calls| - 1]) case Some(x) => [x] case None => [])
  }

  lemma {:induction false} PickConcat<T>(a: seq<Call>, b: seq<Call>, kind: Call -> Option<T>)
    ensures Pick(a + b, kind) == Pick(a, kind) + Pick(b, kind)
  {
    if b == [] {
      assert a + b == a;
    } else {
      assert (a + b)[..|a + b| - 1] == a + b[..|b| - 1];
      PickConcat(a, b[..|b| - 1], kind);
    }
  }

  lemma PickOne<T>(call: Call, kind: Call -> Option<T>)
    ensures Pick([call], kind) == match kind(call) case Some(x) => [x] case None => []
  {
    assert [call][..0] == [];
  }

  function VisibleOf(call: Call): Option<bool> {
    if call.VisibilityChanged? then Some(call.visible) else None
  }

  function FocusOf(call: Call): Option<bool> {
    if call.FocusChanged? then Some(call.focused) else None
  }

  function SurfaceOf(call: Call): Option<Surface> {
    if call.SurfaceChanged? then Some(call.surface) else None
  }

  function MetricsOf(call: Call): Option<Metrics> {
    match call
    case Created(m) => Some(m)
    case MetricsChanged(m) => Some(m)
    case _ => None
  }

  // ---------------------------------------------------------------- pointers

  /** The phases of pointer `p` that the events amount to: inputs that continue its stream, and implied cancels. */
  function Sent(f: Facts, events: seq<Event>, p: nat): seq<Phase> {
    if events == [] then []
    else
      var front, e := events[..|events| - 1], events[|events| - 1];
      Sent(f, front, p) + Sends(Learnt(f, front), Closed(Sent(f, front, p)), e, p)
  }

  function Sends(f: Facts, closed: bool, e: Event, p: nat): seq<Phase> {
    match e
    case PointerInput(id, phase, finite, _) =>
      if id == p && f.visible && finite && (phase.Down? <==> closed) then [phase] else []
    case VisibleEvent(false, _) => if f.visible && !closed then [Cancel] else []
    case FocusEvent(false, _) => if f.focused && !closed then [Cancel] else []
    case _ => []
  }

  /** The phases of one pointer among these calls. */
  function PhasesIn(calls: seq<Call>, p: nat): seq<Phase> {
    if calls == [] then []
    else
      var last := calls[|calls| - 1];
      PhasesIn(calls[..|calls| - 1], p) + if last.Pointer? && last.id == p then [last.phase] else []
  }

  lemma {:induction false} PhasesConcat(a: seq<Call>, b: seq<Call>, p: nat)
    ensures PhasesIn(a + b, p) == PhasesIn(a, p) + PhasesIn(b, p)
  {
    if b == [] {
      assert a + b == a;
    } else {
      assert (a + b)[..|a + b| - 1] == a + b[..|b| - 1];
      PhasesConcat(a, b[..|b| - 1], p);
    }
  }

  lemma PhasesSnoc(calls: seq<Call>, last: Call, p: nat)
    ensures PhasesIn(calls + [last], p)
            == PhasesIn(calls, p) + if last.Pointer? && last.id == p then [last.phase] else []
  {
    assert (calls + [last])[..|calls|] == calls;
  }

  lemma LastApart(pointers: seq<nat>, p: nat)
    requires pointers != [] && forall i, j | 0 <= i < j < |pointers| :: pointers[i] < pointers[j]
    ensures var n := |pointers| - 1;
            if pointers[n] == p then p in pointers && p !in pointers[..n] else p in pointers <==> p in pointers[..n]
  {
    var n := |pointers| - 1;
    assert pointers == pointers[..n] + [pointers[n]];
  }

  lemma {:induction false} CancelPhases(pointers: seq<nat>, p: nat)
    requires forall i, j | 0 <= i < j < |pointers| :: pointers[i] < pointers[j]
    ensures PhasesIn(CancelCalls(pointers), p) == if p in pointers then [Cancel] else []
  {
    if pointers != [] {
      var n := |pointers| - 1;
      CancelPhases(pointers[..n], p);
      assert CancelCalls(pointers) == CancelCalls(pointers[..n]) + [Pointer(pointers[n], Cancel)];
      PhasesSnoc(CancelCalls(pointers[..n]), Pointer(pointers[n], Cancel), p);
      LastApart(pointers, p);
    }
  }

  lemma SortedPhases(down: set<nat>, p: nat)
    ensures PhasesIn(CancelCalls(Sorted(down)), p) == if p in down then [Cancel] else []
  {
    SortedIs(down);
    CancelPhases(Sorted(down), p);
  }

  /** Calls of other kinds. */
  lemma {:induction false} NoPhases(calls: seq<Call>, p: nat)
    requires forall c | c in calls :: !c.Pointer?
    ensures PhasesIn(calls, p) == []
  {
    if calls != [] { NoPhases(calls[..|calls| - 1], p); }
  }

  lemma CancelsFirst(down: set<nat>, rest: seq<Call>, p: nat)
    requires forall c | c in rest :: !c.Pointer?
    ensures PhasesIn(CancelCalls(Sorted(down)) + rest, p) == if p in down then [Cancel] else []
  {
    SortedPhases(down, p);
    NoPhases(rest, p);
    PhasesConcat(CancelCalls(Sorted(down)), rest, p);
  }

  lemma {:induction false} InputPhases(f: Facts, down: set<nat>, e: Event, p: nat)
    requires e.PointerInput?
    ensures PhasesIn(Notices(f, down, e), p) == Sends(f, p !in down, e, p)
  {
    assert [Pointer(e.id, e.phase)][..0] == [];
  }

  lemma {:induction false} HidePhases(f: Facts, down: set<nat>, e: Event, p: nat)
    requires e.VisibleEvent?
    ensures PhasesIn(Notices(f, down, e), p) == Sends(f, p !in down, e, p)
  {
    if e.visible || !f.visible {
      NoPhases(Notices(f, down, e), p);
    } else {
      var rest := (if f.focused then [FocusChanged(false)] else []) + [VisibilityChanged(false)];
      CancelsFirst(down, rest, p);
      assert Notices(f, down, e) == CancelCalls(Sorted(down)) + rest;
    }
  }

  lemma {:induction false} BlurPhases(f: Facts, down: set<nat>, e: Event, p: nat)
    requires e.FocusEvent?
    ensures PhasesIn(Notices(f, down, e), p) == Sends(f, p !in down, e, p)
  {
    if e.focused || !f.focused {
      NoPhases(Notices(f, down, e), p);
    } else {
      CancelsFirst(down, [FocusChanged(false)], p);
    }
  }

  /** An event sends at most one phase of a pointer, which decides whether it is down afterwards. */
  predicate Leaves(before: bool, sent: seq<Phase>, after: bool) {
    |sent| <= 1 && (after <==> if sent == [] then before else !Ends(sent[0]))
  }

  lemma {:induction false} TouchLeaves(f: Facts, down: set<nat>, e: Event, p: nat)
    ensures Leaves(p in down, Sends(f, p !in down, e, p), p in Touch(f, down, e))
  {
  }

  lemma {:induction false} NoticePhases(f: Facts, down: set<nat>, e: Event, p: nat)
    ensures PhasesIn(Notices(f, down, e), p) == Sends(f, p !in down, e, p)
  {
    match e
    case PointerInput(_, _, _, _) => InputPhases(f, down, e, p);
    case VisibleEvent(_, _) => HidePhases(f, down, e, p);
    case FocusEvent(_, _) => BlurPhases(f, down, e, p);
    case _ => NoPhases(Notices(f, down, e), p);
  }

  lemma ClosedNext(phases: seq<Phase>, sent: seq<Phase>, after: bool)
    requires Leaves(!Closed(phases), sent, after)
    ensures after <==> !Closed(phases + sent)
  {
    if sent == [] { assert phases + sent == phases; }
  }

  /** What the script says of `p`, and whether it leaves it down. */
  ghost predicate Agrees(f: Facts, events: seq<Event>, p: nat) {
    PhasesIn(Script(f, events), p) == Sent(f, events, p) && (p in DownSince(f, events) <==> !Closed(Sent(f, events, p)))
  }

  lemma AgreesNext(f: Facts, events: seq<Event>, p: nat)
    requires events != [] && Agrees(f, events[..|events| - 1], p)
    ensures Agrees(f, events, p)
  {
    var front, e := events[..|events| - 1], events[|events| - 1];
    var g, down, sent := Learnt(f, front), DownSince(f, front), Sent(f, front, p);
    NoticePhases(g, down, e, p);
    PhasesConcat(Script(f, front), Notices(g, down, e), p);
    TouchLeaves(g, down, e, p);
    ClosedNext(sent, Sends(g, Closed(sent), e, p), p in Touch(g, down, e));
  }

  /** The pointer calls of the script are the stream of its pointer inputs, closed by the implied cancels. */
  lemma {:induction false} ScriptPhases(f: Facts, events: seq<Event>, p: nat)
    ensures Agrees(f, events, p)
  {
    if events != [] {
      ScriptPhases(f, events[..|events| - 1], p);
      AgreesNext(f, events, p);
    }
  }

  /** What a delegate receives of one pointer, and what it will. */
  ghost function PhasesHeard(s: Session, since: seq<Event>, p: nat): seq<Phase> {
    PhasesIn(Calls(At(s, since), Delegate(s)), p)
  }

  lemma OpenedPhases(f: Facts, calls: seq<Call>, p: nat)
    ensures PhasesIn(Opening(f) + calls, p) == PhasesIn(calls, p)
  {
    NoPhases(Opening(f), p);
    PhasesConcat(Opening(f), calls, p);
  }

  /** While the window runs a bound delegate is sent exactly the accepted phases, in order, and the implied cancels. */
  lemma PointersHeard(s: Session, since: seq<Event>, p: nat)
    requires Binds(s) && At(s, since).running && StaysBound(At(s, since), Delegate(s))
    ensures PhasesHeard(s, since, p) == Sent(Base0(s), since, p)
  {
    HeardWhileRunning(s, since);
    OpenedPhases(Base0(s), Script(Base0(s), since), p);
    ScriptPhases(Base0(s), since, p);
  }

  /** Whether or not the event was announced, a pointer that is down is cancelled, exactly once. */
  lemma FarewellPhases(f: Facts, down: set<nat>, e: Event, p: nat)
    requires Announced(f, e) ==> !e.PointerInput?
    ensures PhasesIn(Farewell(f, down, e), p) == if p in down then [Cancel] else []
  {
    if Announced(f, e) {
      var after := Touch(f, down, e);
      NoticePhases(f, down, e, p);
      TouchLeaves(f, down, e, p);
      CancelsFirst(after, [ShuttingDown], p);
      PhasesConcat(Notices(f, down, e), CancelCalls(Sorted(after)) + [ShuttingDown], p);
      Associate(Notices(f, down, e), CancelCalls(Sorted(after)), [ShuttingDown]);
    } else {
      CancelsFirst(down, [ShuttingDown], p);
    }
  }

  /** When the window has stopped it has been sent one more cancel if the pointer was down. */
  lemma PointersAtTheEnd(s: Session, since: seq<Event>, p: nat) returns (k: nat)
    requires Binds(s) && !At(s, since).running && StaysBound(At(s, since), Delegate(s))
    ensures k < |since| && At(s, since[..k]).running && !At(s, since[..k + 1]).running
    ensures var sent := Sent(Base0(s), since[..k], p);
            PhasesHeard(s, since, p) == sent + if Closed(sent) then [] else [Cancel]
  {
    var f := Base0(s);
    k := HeardAtTheEnd(s, since);
    var script, farewell := Script(f, since[..k]), Farewell(Learnt(f, since[..k]), DownSince(f, since[..k]), since[k]);
    Associate(Opening(f), script, farewell);
    OpenedPhases(f, script + farewell, p);
    PhasesConcat(script, farewell, p);
    ScriptPhases(f, since[..k], p);
    FarewellPhases(Learnt(f, since[..k]), DownSince(f, since[..k]), since[k], p);
  }

  /** What has been delivered already is the front of that stream. */
  lemma {:induction false} PhasesReceived(log: seq<Delivery>, g: nat, p: nat)
    ensures PhasesIn(Received(log, g), p) == Phases(log, g, p)
  {
    if log != [] {
      var last := log[|log| - 1];
      var more := if last.delegate == g && !last.call.FrameRequested? then [last.call] else [];
      PhasesReceived(log[..|log| - 1], g, p);
      PhasesConcat(Received(log[..|log| - 1], g), more, p);
      assert more != [] ==> more[..0] == [];
    }
  }

  // ---------------------------------------------------------------- the other kinds

  /** The successive values of one part of what is known. */
  function Turns<T(==)>(f: Facts, events: seq<Event>, part: Facts -> T): seq<T> {
    if events == [] then []
    else
      var before, after := part(Learnt(f, events[..|events| - 1])), part(Learnt(f, events));
      Turns(f, events[..|events| - 1], part) + if after == before then [] else [after]
  }

  function VisiblePart(f: Facts): bool { f.visible }
  function FocusPart(f: Facts): bool { f.focused }
  function SurfacePart(f: Facts): Surface { f.surface }
  function MetricsPart(f: Facts): Metrics { Metrics(f.shape, f.generation) }

  /** Whether every notice of an event tells of one part exactly when it changes. */
  ghost predicate TellsOf<T>(f: Facts, down: set<nat>, e: Event, kind: Call -> Option<T>, part: Facts -> T) {
    var before, after := part(f), part(Learn(f, e));
    Pick(Notices(f, down, e), kind) == if after == before then [] else [after]
  }

  lemma {:induction false} ScriptTells<T>(f: Facts, events: seq<Event>, kind: Call -> Option<T>, part: Facts -> T)
    requires forall g, down, e :: TellsOf(g, down, e, kind, part)
    ensures Pick(Script(f, events), kind) == Turns(f, events, part)
  {
    if events != [] {
      var front, e := events[..|events| - 1], events[|events| - 1];
      ScriptTells(f, front, kind, part);
      assert TellsOf(Learnt(f, front), DownSince(f, front), e, kind, part);
      PickConcat(Script(f, front), Notices(Learnt(f, front), DownSince(f, front), e), kind);
    }
  }

  lemma {:induction false} NotThisKind<T>(calls: seq<Call>, kind: Call -> Option<T>)
    requires forall c | c in calls :: kind(c).None?
    ensures Pick(calls, kind) == []
  {
    if calls != [] { NotThisKind(calls[..|calls| - 1], kind); }
  }

  /** What an event may make of the facts, and the notices that go with it; `pointers` are those it cancels. */
  ghost predicate NoticeShape(f: Facts, e: Event, after: Facts, notices: seq<Call>, pointers: seq<nat>) {
    match e
    case MetricsEvent(_, _) =>
      && after == f.(shape := after.shape, generation := after.generation)
      && notices == if MetricsPart(after) == MetricsPart(f) then [] else [MetricsChanged(MetricsPart(after))]
    case VisibleEvent(visible, _) =>
      && after == f.(visible := visible, focused := after.focused)
      && (visible == f.visible ==> after == f)
      && notices == if visible == f.visible then []
                    else (if visible then [] else CancelCalls(pointers))
                         + (if after.focused == f.focused then [] else [FocusChanged(after.focused)])
                         + [VisibilityChanged(visible)]
    case FocusEvent(_, _) =>
      && after == f.(focused := after.focused)
      && notices == if after.focused == f.focused then []
                    else (if after.focused then [] else CancelCalls(pointers)) + [FocusChanged(after.focused)]
    case SurfaceEvent(surface, _) =>
      && after == f.(surface := surface, generation := after.generation)
      && (surface == f.surface ==> after == f)
      && notices == if surface == f.surface then []
                    else (if after.generation == f.generation then [] else [MetricsChanged(MetricsPart(after))])
                         + [SurfaceChanged(surface, after.generation)]
    case _ => after == f && forall c | c in notices :: c.Pointer? || c.Other?
  }

  lemma NoticesShaped(f: Facts, down: set<nat>, e: Event)
    ensures NoticeShape(f, e, Learn(f, e), Notices(f, down, e), Sorted(down))
  {
  }

  /** Calls of other kinds in front do not matter. */
  lemma BehindOthers<T>(front: seq<Call>, back: seq<Call>, kind: Call -> Option<T>)
    requires forall c | c in front :: kind(c).None?
    ensures Pick(front + back, kind) == Pick(back, kind)
  {
    NotThisKind(front, kind);
    PickConcat(front, back, kind);
  }

  /** Nor do they behind. */
  lemma BeforeOther<T>(front: seq<Call>, last: Call, kind: Call -> Option<T>)
    requires kind(last).None?
    ensures Pick(front + [last], kind) == Pick(front, kind)
  {
    PickOne(last, kind);
    PickConcat(front, [last], kind);
  }

  ghost predicate NoneOf<T>(calls: seq<Call>, kind: Call -> Option<T>) {
    forall c | c in calls :: kind(c).None?
  }

  lemma NoVisible(f: Facts, e: Event, after: Facts, notices: seq<Call>, pointers: seq<nat>)
    requires NoticeShape(f, e, after, notices, pointers) && !(e.VisibleEvent? && e.visible != f.visible)
    ensures NoneOf(notices, VisibleOf) && after.visible == f.visible
  {
  }

  lemma VisibleLast(pointers: seq<nat>, cancels: bool, focus: seq<Call>, visible: bool)
    requires forall c | c in focus :: c.FocusChanged?
    ensures Pick((if cancels then CancelCalls(pointers) else []) + focus + [VisibilityChanged(visible)], VisibleOf)
            == [visible]
  {
    BehindOthers((if cancels then CancelCalls(pointers) else []) + focus, [VisibilityChanged(visible)], VisibleOf);
    PickOne(VisibilityChanged(visible), VisibleOf);
  }

  lemma VisibleShape(f: Facts, e: Event, after: Facts, notices: seq<Call>, pointers: seq<nat>)
    requires NoticeShape(f, e, after, notices, pointers)
    ensures Pick(notices, VisibleOf) == if after.visible == f.visible then [] else [after.visible]
  {
    if e.VisibleEvent? && e.visible != f.visible {
      VisibleLast(pointers, !e.visible, if after.focused == f.focused then [] else [FocusChanged(after.focused)],
                  e.visible);
    } else {
      NoVisible(f, e, after, notices, pointers);
      NotThisKind(notices, VisibleOf);
    }
  }

  lemma NoFocus(f: Facts, e: Event, after: Facts, notices: seq<Call>, pointers: seq<nat>)
    requires NoticeShape(f, e, after, notices, pointers) && after.focused == f.focused
    ensures NoneOf(notices, FocusOf)
  {
  }

  lemma FocusLast(pointers: seq<nat>, cancels: bool, focused: bool)
    ensures Pick((if cancels then CancelCalls(pointers) else []) + [FocusChanged(focused)], FocusOf) == [focused]
  {
    BehindOthers(if cancels then CancelCalls(pointers) else [], [FocusChanged(focused)], FocusOf);
    PickOne(FocusChanged(focused), FocusOf);
  }

  lemma FocusShape(f: Facts, e: Event, after: Facts, notices: seq<Call>, pointers: seq<nat>)
    requires NoticeShape(f, e, after, notices, pointers)
    ensures Pick(notices, FocusOf) == if after.focused == f.focused then [] else [after.focused]
  {
    if after.focused == f.focused {
      NoFocus(f, e, after, notices, pointers);
      NotThisKind(notices, FocusOf);
    } else if e.VisibleEvent? {
      FocusLast(pointers, !e.visible, after.focused);
      BeforeOther((if !e.visible then CancelCalls(pointers) else []) + [FocusChanged(after.focused)],
                  VisibilityChanged(e.visible), FocusOf);
    } else {
      FocusLast(pointers, !after.focused, after.focused);
    }
  }

  lemma NoSurface(f: Facts, e: Event, after: Facts, notices: seq<Call>, pointers: seq<nat>)
    requires NoticeShape(f, e, after, notices, pointers) && after.surface == f.surface
    ensures NoneOf(notices, SurfaceOf)
  {
  }

  lemma SurfaceLast(metrics: seq<Call>, surface: Surface, generation: nat)
    requires forall c | c in metrics :: c.MetricsChanged?
    ensures Pick(metrics + [SurfaceChanged(surface, generation)], SurfaceOf) == [surface]
  {
    BehindOthers(metrics, [SurfaceChanged(surface, generation)], SurfaceOf);
    PickOne(SurfaceChanged(surface, generation), SurfaceOf);
  }

  lemma SurfaceShape(f: Facts, e: Event, after: Facts, notices: seq<Call>, pointers: seq<nat>)
    requires NoticeShape(f, e, after, notices, pointers)
    ensures Pick(notices, SurfaceOf) == if after.surface == f.surface then [] else [after.surface]
  {
    if after.surface == f.surface {
      NoSurface(f, e, after, notices, pointers);
      NotThisKind(notices, SurfaceOf);
    } else {
      SurfaceLast(if after.generation == f.generation then [] else [MetricsChanged(MetricsPart(after))], after.surface,
                  after.generation);
    }
  }

  lemma NoMetrics(f: Facts, e: Event, after: Facts, notices: seq<Call>, pointers: seq<nat>)
    requires NoticeShape(f, e, after, notices, pointers) && MetricsPart(after) == MetricsPart(f)
    ensures NoneOf(notices, MetricsOf)
  {
  }

  lemma MetricsFirst(metrics: Metrics, surface: Surface, generation: nat)
    ensures Pick([MetricsChanged(metrics)], MetricsOf) == [metrics]
    ensures Pick([MetricsChanged(metrics)] + [SurfaceChanged(surface, generation)], MetricsOf) == [metrics]
  {
    PickOne(MetricsChanged(metrics), MetricsOf);
    BeforeOther([MetricsChanged(metrics)], SurfaceChanged(surface, generation), MetricsOf);
  }

  lemma MetricsShape(f: Facts, e: Event, after: Facts, notices: seq<Call>, pointers: seq<nat>)
    requires NoticeShape(f, e, after, notices, pointers)
    ensures Pick(notices, MetricsOf) == if MetricsPart(after) == MetricsPart(f) then [] else [MetricsPart(after)]
  {
    if MetricsPart(after) == MetricsPart(f) {
      NoMetrics(f, e, after, notices, pointers);
      NotThisKind(notices, MetricsOf);
    } else {
      MetricsFirst(MetricsPart(after), after.surface, after.generation);
    }
  }

  /** Each kind tells of its part exactly when that changes. */
  lemma AllTold(f: Facts, down: set<nat>, e: Event)
    ensures TellsOf(f, down, e, MetricsOf, MetricsPart) && TellsOf(f, down, e, VisibleOf, VisiblePart)
    ensures TellsOf(f, down, e, FocusOf, FocusPart) && TellsOf(f, down, e, SurfaceOf, SurfacePart)
  {
    var after, notices, pointers := Learn(f, e), Notices(f, down, e), Sorted(down);
    NoticesShaped(f, down, e);
    MetricsShape(f, e, after, notices, pointers);
    VisibleShape(f, e, after, notices, pointers);
    FocusShape(f, e, after, notices, pointers);
    SurfaceShape(f, e, after, notices, pointers);
  }

  lemma OpeningVisible(f: Facts)
    ensures Pick(Opening(f), VisibleOf) == if f.visible then [true] else []
  {
    BehindOthers([Created(Metrics(f.shape, f.generation))], if f.visible then [VisibilityChanged(true)] else [],
                 VisibleOf);
    PickOne(VisibilityChanged(true), VisibleOf);
  }

  lemma OpeningMetrics(f: Facts)
    ensures Pick(Opening(f), MetricsOf) == [MetricsPart(f)]
  {
    var created := [Created(Metrics(f.shape, f.generation))];
    PickOne(Created(Metrics(f.shape, f.generation)), MetricsOf);
    if f.visible {
      BeforeOther(created, VisibilityChanged(true), MetricsOf);
    } else {
      assert Opening(f) == created;
    }
  }

  lemma OpeningTells(f: Facts)
    ensures Pick(Opening(f), VisibleOf) == if f.visible then [true] else []
    ensures Pick(Opening(f), FocusOf) == [] && Pick(Opening(f), SurfaceOf) == []
    ensures Pick(Opening(f), MetricsOf) == [MetricsPart(f)]
  {
    OpeningVisible(f);
    OpeningMetrics(f);
    NotThisKind(Opening(f), FocusOf);
    NotThisKind(Opening(f), SurfaceOf);
  }

  /** A kind of callback tells a bound delegate of every change of its part, in order, and of nothing else. */
  lemma KindHeard<T>(s: Session, since: seq<Event>, kind: Call -> Option<T>, part: Facts -> T)
    requires Binds(s) && At(s, since).running && StaysBound(At(s, since), Delegate(s))
    requires forall g, down, e :: TellsOf(g, down, e, kind, part)
    ensures Pick(Calls(At(s, since), Delegate(s)), kind) == Pick(Opening(Base0(s)), kind) + Turns(Base0(s), since, part)
  {
    HeardWhileRunning(s, since);
    PickConcat(Opening(Base0(s)), Script(Base0(s), since), kind);
    ScriptTells(Base0(s), since, kind, part);
  }

  /** Metrics, visibility, focus and surface as a bound delegate hears of them. */
  lemma ChangesHeard(s: Session, since: seq<Event>)
    requires Binds(s) && At(s, since).running && StaysBound(At(s, since), Delegate(s))
    ensures var f, calls := Base0(s), Calls(At(s, since), Delegate(s));
            && Pick(calls, MetricsOf) == [MetricsPart(f)] + Turns(f, since, MetricsPart)
            && Pick(calls, VisibleOf) == (if f.visible then [true] else []) + Turns(f, since, VisiblePart)
            && Pick(calls, FocusOf) == Turns(f, since, FocusPart)
            && Pick(calls, SurfaceOf) == Turns(f, since, SurfacePart)
  {
    forall g, down, e ensures TellsOf(g, down, e, MetricsOf, MetricsPart) { AllTold(g, down, e); }
    KindHeard(s, since, MetricsOf, MetricsPart);
    forall g, down, e ensures TellsOf(g, down, e, VisibleOf, VisiblePart) { AllTold(g, down, e); }
    KindHeard(s, since, VisibleOf, VisiblePart);
    forall g, down, e ensures TellsOf(g, down, e, FocusOf, FocusPart) { AllTold(g, down, e); }
    KindHeard(s, since, FocusOf, FocusPart);
    forall g, down, e ensures TellsOf(g, down, e, SurfaceOf, SurfacePart) { AllTold(g, down, e); }
    KindHeard(s, since, SurfaceOf, SurfacePart);
    OpeningTells(Base0(s));
  }

  // ---------------------------------------------------------------- read off the inputs alone

  function VisibleInputs(events: seq<Event>): seq<bool> {
    if events == [] then []
    else
      var last := events[|events| - 1];
      VisibleInputs(events[..|events| - 1]) + if last.VisibleEvent? then [last.visible] else []
  }

  function SurfaceInputs(events: seq<Event>): seq<Surface> {
    if events == [] then []
    else
      var last := events[|events| - 1];
      SurfaceInputs(events[..|events| - 1]) + if last.SurfaceEvent? then [last.surface] else []
  }

  function Latest<T>(start: T, inputs: seq<T>): T {
    if inputs == [] then start else inputs[|inputs| - 1]
  }

  /** The inputs that differ from the one before. */
  function Flips<T(==)>(start: T, inputs: seq<T>): seq<T> {
    if inputs == [] then []
    else
      var front, last := inputs[..|inputs| - 1], inputs[|inputs| - 1];
      Flips(start, front) + if last == Latest(start, front) then [] else [last]
  }

  lemma FlipsNext<T>(start: T, inputs: seq<T>, next: T)
    ensures Flips(start, inputs + [next]) == Flips(start, inputs) + if next == Latest(start, inputs) then [] else [next]
    ensures Latest(start, inputs + [next]) == next
  {
    assert (inputs + [next])[..|inputs|] == inputs;
  }

  /** A window is as visible as it was last made, and its delegate hears of every change of that. */
  lemma {:induction false} VisibleByInputs(f: Facts, events: seq<Event>)
    ensures Learnt(f, events).visible == Latest(f.visible, VisibleInputs(events))
    ensures Turns(f, events, VisiblePart) == Flips(f.visible, VisibleInputs(events))
  {
    if events != [] {
      var front, e := events[..|events| - 1], events[|events| - 1];
      VisibleByInputs(f, front);
      if e.VisibleEvent? {
        FlipsNext(f.visible, VisibleInputs(front), e.visible);
      } else {
        assert VisibleInputs(events) == VisibleInputs(front);
      }
    }
  }

  /** The same for the state of its surface. */
  lemma {:induction false} SurfaceByInputs(f: Facts, events: seq<Event>)
    ensures Learnt(f, events).surface == Latest(f.surface, SurfaceInputs(events))
    ensures Turns(f, events, SurfacePart) == Flips(f.surface, SurfaceInputs(events))
  {
    if events != [] {
      var front, e := events[..|events| - 1], events[|events| - 1];
      SurfaceByInputs(f, front);
      if e.SurfaceEvent? {
        FlipsNext(f.surface, SurfaceInputs(front), e.surface);
      } else {
        assert SurfaceInputs(events) == SurfaceInputs(front);
      }
    }
  }
}
