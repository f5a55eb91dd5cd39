/**
 The Wayland surface engine read off its events (src/platform/wayland.cpp): the size and scale it heads for are the
 last ones received, it is settled exactly between a submission and the next change, and no frame request is lost.
 */
module WaylandInputs {
  import opened Common
  import opened WaylandProtocol
  import opened WaylandRuns

  lemma RunSnoc(extent: Extent, fractional: bool, events: seq<Event>, e: Event)
    ensures var w := Run(extent, fractional, events);
            Run(extent, fractional, events + [e]) == World(Step(w.surface, e), Record(w.history, w.surface, e))
  {
    assert (events + [e])[..|events|] == events;
  }

  // ---------------------------------------------------------------- size and scale

  /** The surface has been announced to the compositor. */
  predicate Begun(events: seq<Event>) {
    Begin in events
  }

  predicate SizeOk(e: Event) {
    e.Toplevel? && e.width <= MAX_I32 && e.height <= MAX_I32
  }

  /** Event `i` is the last valid toplevel size, and no configure has used it yet. */
  predicate LastSize(events: seq<Event>, i: nat) {
    && i < |events| && SizeOk(events[i])
    && forall j | i < j < |events| :: !SizeOk(events[j]) && !(events[j].Configure? && Begun(events[..j]))
  }

  /** No valid size has been received since the last configure. */
  ghost predicate NoSize(events: seq<Event>) {
    forall i: nat {:trigger LastSize(events, i)} :: !LastSize(events, i)
  }

  lemma BegunSnoc(events: seq<Event>, e: Event)
    ensures Begun(events + [e]) <==> Begun(events) || e.Begin?
  {
  }

  lemma LastSizeSnoc(events: seq<Event>, e: Event, i: nat)
    requires i < |events|
    ensures LastSize(events + [e], i) <==> LastSize(events, i) && !SizeOk(e) && !(e.Configure? && Begun(events))
  {
    var longer := events + [e];
    assert forall j | 0 <= j <= |events| :: longer[..j] == events[..j];
    assert longer[..|events|] == events;
    if LastSize(events, i) && !SizeOk(e) && !(e.Configure? && Begun(events)) {
      forall j | i < j < |longer| ensures !SizeOk(longer[j]) && !(longer[j].Configure? && Begun(longer[..j])) {
        if j < |events| { assert longer[j] == events[j]; }
      }
    }
    if LastSize(longer, i) {
      assert longer[|events|] == e;
      forall j | i < j < |events| ensures !SizeOk(events[j]) && !(events[j].Configure? && Begun(events[..j])) {
        assert longer[j] == events[j];
      }
    }
  }

  /** What is staged is the last valid size, if it has not been used. */
  ghost predicate Stages(s: Surface, events: seq<Event>) {
    && s.started == Begun(events)
    && (NoSize(events) ==> s.stagedWidth == 0 && s.stagedHeight == 0)
    && forall i: nat | LastSize(events, i) :: s.stagedWidth == events[i].width && s.stagedHeight == events[i].height
  }

  /** Event `e` replaces the last size, uses it up, or leaves it. */
  lemma SizesNext(events: seq<Event>, e: Event)
    ensures SizeOk(e) ==> forall i: nat :: LastSize(events + [e], i) <==> i == |events|
    ensures e.Configure? && Begun(events) ==> NoSize(events + [e])
    ensures !SizeOk(e) && !(e.Configure? && Begun(events)) ==>
              forall i: nat :: LastSize(events + [e], i) <==> LastSize(events, i)
  {
    var longer := events + [e];
    forall i: nat ensures LastSize(longer, i) <==>
            if i < |events| then LastSize(events, i) && !SizeOk(e) && !(e.Configure? && Begun(events))
            else i == |events| && SizeOk(e) {
      if i < |events| { LastSizeSnoc(events, e, i); }
    }
  }

  lemma SameStaged(s: Surface, e: Event)
    requires !SizeOk(e) && !(e.Configure? && s.started)
    ensures var t := Step(s, e);
            t.stagedWidth == s.stagedWidth && t.stagedHeight == s.stagedHeight && t.started == (s.started || e.Begin?)
  {
  }

  lemma StagesKept(s: Surface, events: seq<Event>, e: Event)
    requires Stages(s, events) && !SizeOk(e) && !(e.Configure? && Begun(events))
    ensures Stages(Step(s, e), events + [e])
  {
    SizesNext(events, e);
    BegunSnoc(events, e);
    if NoSize(events + [e]) {
      forall i: nat ensures !LastSize(events, i) { assert !LastSize(events + [e], i); }
    }
    forall i: nat | LastSize(events + [e], i) ensures LastSize(events, i) && (events + [e])[i] == events[i] {}
    SameStaged(s, e);
  }

  lemma StagesNext(s: Surface, events: seq<Event>, e: Event)
    requires Stages(s, events) && s.revision < MAX_U64
    ensures Stages(Step(s, e), events + [e])
  {
    SizesNext(events, e);
    BegunSnoc(events, e);
    if SizeOk(e) {
      assert LastSize(events + [e], |events|);
    } else if !(e.Configure? && Begun(events)) {
      StagesKept(s, events, e);
    }
  }

  lemma {:induction false} StagesRun(extent: Extent, fractional: bool, events: seq<Event>)
    requires Run(extent, fractional, events).surface.revision < MAX_U64
    ensures Stages(Run(extent, fractional, events).surface, events)
  {
    if events != [] {
      var front, e := events[..|events| - 1], events[|events| - 1];
      StepGrows(Run(extent, fractional, front).surface, e);
      StagesRun(extent, fractional, front);
      StagesNext(Run(extent, fractional, front).surface, front, e);
      assert front + [e] == events;
    } else {
      assert forall i: nat :: !LastSize([], i);
    }
  }

  /** A configure takes over the last valid size received, side by side, where zero keeps the side as it was. */
  lemma ConfigureTakesSize(extent: Extent, fractional: bool, events: seq<Event>, serial: u32, i: nat)
    requires Run(extent, fractional, events).surface.revision < MAX_U64 && Begun(events) && LastSize(events, i)
    ensures var s, t := Run(extent, fractional, events).surface,
                        Run(extent, fractional, events + [Configure(serial)]).surface;
            && t.desired.width == (if events[i].width == 0 then s.desired.width else events[i].width)
            && t.desired.height == (if events[i].height == 0 then s.desired.height else events[i].height)
  {
    StagesRun(extent, fractional, events);
    RunSnoc(extent, fractional, events, Configure(serial));
  }

  /** Nothing else changes the size the surface heads for. */
  lemma OnlyConfigureResizes(extent: Extent, fractional: bool, events: seq<Event>, e: Event)
    requires Run(extent, fractional, events).surface.revision < MAX_U64
    requires !e.Configure? || !Begun(events) || NoSize(events)
    ensures Run(extent, fractional, events + [e]).surface.desired == Run(extent, fractional, events).surface.desired
  {
    StagesRun(extent, fractional, events);
    RunSnoc(extent, fractional, events, e);
  }

  /** The last preferred scale received; zero does not count. */
  function LastScale(events: seq<Event>): u32 {
    if events == [] then DENOMINATOR
    else
      var last := events[|events| - 1];
      if last.Scale? && last.numerator != 0 then last.numerator else LastScale(events[..|events| - 1])
  }

  lemma ScaleNext(s: Surface, e: Event)
    requires s.revision < MAX_U64
    ensures Step(s, e).desiredScale == if e.Scale? && e.numerator != 0 then e.numerator else s.desiredScale
  {
  }

  lemma {:induction false} ScaleIsLast(extent: Extent, fractional: bool, events: seq<Event>)
    requires Run(extent, fractional, events).surface.revision < MAX_U64
    ensures Run(extent, fractional, events).surface.desiredScale == LastScale(events)
  {
    if events != [] {
      var front, e := events[..|events| - 1], events[|events| - 1];
      StepGrows(Run(extent, fractional, front).surface, e);
      ScaleIsLast(extent, fractional, front);
      ScaleNext(Run(extent, fractional, front).surface, e);
    }
  }

  // ---------------------------------------------------------------- settled

  /** A configure, a new scale, a lost buffer or a dropped plan: something is left to be submitted. */
  predicate Unsettles(s: Surface, e: Event) {
    match e
    case Configure(_) => ConfigureAccepted(s)
    case Scale(numerator) =>
      numerator != 0 && numerator != s.desiredScale && s.revision < MAX_U64 && (s.configured || s.pending.Some?)
    case Lost => (s.configured || s.pending.Some?) && s.revision < MAX_U64
    case Drop(c) => s.prepared == Some(c)
    case _ => false
  }

  /** The last submission has not been followed by anything that unsettles the surface. */
  ghost predicate SubmittedLast(extent: Extent, fractional: bool, events: seq<Event>) {
    events != [] &&
    var front, e := events[..|events| - 1], events[|events| - 1];
    var s := Run(extent, fractional, front).surface;
    if e.Send? && Submittable(s, e.commit) then true
    else !Unsettles(s, e) && SubmittedLast(extent, fractional, front)
  }

  lemma SettledNext(s: Surface, e: Event)
    requires SurfaceOk(s) && (!s.configured ==> s.prepared.None? || s.pending.Some?)
    ensures Settled(Step(s, e)) <==> (e.Send? && Submittable(s, e.commit)) || (Settled(s) && !Unsettles(s, e))
  {
  }

  /** The surface is settled exactly from a submission to the next change. */
  lemma {:induction false} SettledExactly(extent: Extent, fractional: bool, events: seq<Event>)
    requires ExtentValid(extent)
    ensures Settled(Run(extent, fractional, events).surface) <==> SubmittedLast(extent, fractional, events)
  {
    if events != [] {
      var front, e := events[..|events| - 1], events[|events| - 1];
      RunOk(extent, fractional, front);
      SettledExactly(extent, fractional, front);
      SettledNext(Run(extent, fractional, front).surface, e);
    }
  }

  /** The latest configure has been answered, unless it is still pending. */
  predicate Answered(w: World) {
    var h := w.history;
    w.surface.pending.None? && h.received != [] ==>
      exists i | 0 <= i < |h.submitted| ::
        h.submitted[i].commit.serial == Some(h.received[|h.received| - 1]) && h.submitted[i].configures == |h.received|
  }

  lemma AnsweredNext(w: World, e: Event)
    requires Inv(w) && Answered(w)
    ensures Answered(World(Step(w.surface, e), Record(w.history, w.surface, e)))
  {
    var h, v := w.history, World(Step(w.surface, e), Record(w.history, w.surface, e));
    if e.Send? && Submittable(w.surface, e.commit) {
      assert v.history.submitted[|h.submitted|] == Submission(e.commit, |h.received|);
      if w.surface.pending.None? && h.received != [] {
        var i :| 0 <= i < |h.submitted| && h.submitted[i].commit.serial == Some(h.received[|h.received| - 1])
                 && h.submitted[i].configures == |h.received|;
        assert v.history.submitted[i] == h.submitted[i];
      }
    }
  }

  lemma {:induction false} AnsweredRun(extent: Extent, fractional: bool, events: seq<Event>)
    requires ExtentValid(extent)
    ensures Answered(Run(extent, fractional, events))
  {
    if events != [] {
      var front := events[..|events| - 1];
      RunOk(extent, fractional, front);
      AnsweredRun(extent, fractional, front);
      AnsweredNext(Run(extent, fractional, front), events[|events| - 1]);
    }
  }

  /** A settled surface shows the last scale it was given and has acknowledged the last configure. */
  lemma SettledIsCurrent(extent: Extent, fractional: bool, events: seq<Event>)
    requires ExtentValid(extent)
    requires var s := Run(extent, fractional, events).surface; Settled(s) && s.revision < MAX_U64
    ensures var w := Run(extent, fractional, events);
            && w.surface.applied == w.surface.desired
            && w.surface.appliedScale == Effective(LastScale(events), w.surface.fractional)
            && (w.history.received != [] ==>
                  exists i | 0 <= i < |w.history.submitted| ::
                    w.history.submitted[i].commit.serial == Some(w.history.received[|w.history.received| - 1]))
  {
    RunOk(extent, fractional, events);
    ScaleIsLast(extent, fractional, events);
    AnsweredRun(extent, fractional, events);
  }

  // ---------------------------------------------------------------- frame requests

  /** Event `i` submits a commit that asks for a frame callback. */
  ghost predicate ServesAt(extent: Extent, fractional: bool, events: seq<Event>, i: nat) {
    && i < |events| && events[i].Send? && events[i].commit.wantsFrame
    && Submittable(Run(extent, fractional, events[..i]).surface, events[i].commit)
  }

  /** The request of event `i` has not been served by any later one. */
  ghost predicate RequestOpen(extent: Extent, fractional: bool, events: seq<Event>, i: nat) {
    i < |events| && events[i].Demand? && forall j: nat | i < j :: !ServesAt(extent, fractional, events, j)
  }

  lemma OpenNext(extent: Extent, fractional: bool, events: seq<Event>, e: Event, i: nat)
    requires i < |events|
    ensures RequestOpen(extent, fractional, events + [e], i) <==>
            RequestOpen(extent, fractional, events, i) && !ServesAt(extent, fractional, events + [e], |events|)
  {
    var longer := events + [e];
    forall j: nat | j < |events|
      ensures ServesAt(extent, fractional, longer, j) <==> ServesAt(extent, fractional, events, j)
    {
      assert longer[..j] == events[..j] && longer[j] == events[j];
    }
    if RequestOpen(extent, fractional, longer, i) {
      forall j: nat | i < j ensures !ServesAt(extent, fractional, events, j) {
        assert !ServesAt(extent, fractional, longer, j);
      }
    }
  }

  lemma DemandNext(s: Surface, e: Event)
    ensures Step(s, e).demand <==>
            e.Demand? || (s.demand && !(e.Send? && Submittable(s, e.commit) && e.commit.wantsFrame))
  {
  }

  /** A frame is demanded exactly while some request has not been followed by a commit that asks for a callback. */
  lemma {:induction false} DemandExactly(extent: Extent, fractional: bool, events: seq<Event>)
    ensures Run(extent, fractional, events).surface.demand <==>
            exists i: nat :: RequestOpen(extent, fractional, events, i)
  {
    if events != [] {
      var front, e := events[..|events| - 1], events[|events| - 1];
      assert events == front + [e] && events[..|front|] == front;
      DemandExactly(extent, fractional, front);
      DemandNext(Run(extent, fractional, front).surface, e);
      forall i: nat | i < |front| ensures RequestOpen(extent, fractional, events, i) <==>
              RequestOpen(extent, fractional, front, i) && !ServesAt(extent, fractional, events, |front|) {
        OpenNext(extent, fractional, front, e, i);
      }
      assert RequestOpen(extent, fractional, events, |front|) <==> e.Demand?;
    }
  }

  /** A commit asks for a callback exactly when a frame is demanded and no callback is outstanding. */
  lemma PlanAsks(extent: Extent, fractional: bool, events: seq<Event>)
    requires ExtentValid(extent) && PrepareOutcome(Run(extent, fractional, events).surface).Planned?
    ensures var w := Run(extent, fractional, events);
            PrepareOutcome(w.surface).commit.wantsFrame <==>
            w.history.outstanding == {} && exists i: nat :: RequestOpen(extent, fractional, events, i)
  {
    RunOk(extent, fractional, events);
    DemandExactly(extent, fractional, events);
  }

  /** A commit that was planned and is sent at once is submitted, and serves the demand. */
  lemma PlanServes(extent: Extent, fractional: bool, events: seq<Event>)
    requires ExtentValid(extent) && PrepareOutcome(Run(extent, fractional, events).surface).Planned?
    ensures var w, c := Run(extent, fractional, events), PrepareOutcome(Run(extent, fractional, events).surface).commit;
            var v := Run(extent, fractional, events + [Plan] + [Send(c)]);
            && v.history.submitted == w.history.submitted + [Submission(c, |w.history.received|)]
            && Settled(v.surface)
            && (c.wantsFrame ==> v.history.outstanding == {c.generation} && !v.surface.demand)
  {
    var w, c := Run(extent, fractional, events), PrepareOutcome(Run(extent, fractional, events).surface).commit;
    RunOk(extent, fractional, events);
    RunSnoc(extent, fractional, events, Plan);
    RunSnoc(extent, fractional, events + [Plan], Send(c));
  }

  /** When there is something to commit: nothing is planned yet, and a change or a servable request is open. */
  lemma DueExactly(extent: Extent, fractional: bool, events: seq<Event>)
    requires ExtentValid(extent)
    ensures var w := Run(extent, fractional, events);
            CommitDue(w.surface) <==>
            && w.surface.started && (w.surface.configured || w.surface.pending.Some?) && w.surface.prepared.None?
            && (|| !SubmittedLast(extent, fractional, events)
                || (w.history.outstanding == {} && exists i: nat :: RequestOpen(extent, fractional, events, i)))
  {
    RunOk(extent, fractional, events);
    SettledExactly(extent, fractional, events);
    DemandExactly(extent, fractional, events);
  }
}
