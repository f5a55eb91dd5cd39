/** What every run of the Wayland surface engine guarantees. */
module WaylandRuns {
  import opened Common
  import opened WaylandProtocol

  // ---------------------------------------------------------------- invariant

  /** A prepared commit describes the current state and would be accepted. */
  predicate PlanOk(s: Surface, c: Commit) {
    && CommitValid(c) && c.generation < s.nextGeneration && c.revision == s.revision
    && c.serial == s.pending && c.logical == s.desired && c.scale == Effective(s.desiredScale, s.fractional)
    && c.viewporter == s.fractional && (c.wantsFrame ==> WantsFrame(s)) && (s.configured || s.pending.Some?)
  }

  predicate Settled(s: Surface) {
    s.configured && !s.dirty && s.pending.None?
  }

  predicate SurfaceOk(s: Surface) {
    && ExtentValid(s.desired) && s.stagedWidth <= MAX_I32 && s.stagedHeight <= MAX_I32 && s.desiredScale > 0
    && s.revision > 0 && s.nextGeneration > 0 && s.callback < s.nextGeneration
    && (s.prepared.Some? ==> PlanOk(s, s.prepared.value))
    && (Settled(s) ==> s.applied == s.desired && s.appliedScale == Effective(s.desiredScale, s.fractional))
  }

  /** Serials are acknowledged only as the latest received, and each configure at most once. */
  predicate SubmissionsOk(h: History) {
    && (forall i | 0 <= i < |h.submitted| ::
          var x := h.submitted[i];
          CommitValid(x.commit) && x.configures <= |h.received| &&
          (x.commit.serial.Some? ==> 0 < x.configures && x.commit.serial.value == h.received[x.configures - 1]))
    && (forall i, j | 0 <= i < j < |h.submitted| && h.submitted[j].commit.serial.Some? ::
          h.submitted[i].configures < h.submitted[j].configures)
    && (h.submitted != [] ==> h.submitted[0].commit.serial.Some?)
  }

  predicate HistoryOk(w: World) {
    var s, h := w.surface, w.history;
    && SubmissionsOk(h)
    && (s.configured <==> h.submitted != [])
    && (s.pending.Some? ==> h.received != [] && s.pending.value == h.received[|h.received| - 1])
    && (s.pending.Some? ==> forall i | 0 <= i < |h.submitted| :: h.submitted[i].configures < |h.received|)
    && h.outstanding == (if s.callback == 0 then {} else {s.callback})
  }

  predicate Inv(w: World) {
    SurfaceOk(w.surface) && HistoryOk(w)
  }

  // ---------------------------------------------------------------- steps

  /** Every prepared commit is valid, with buffers of exactly the rounded-up size. */
  lemma PlannedOk(s: Surface)
    requires SurfaceOk(s) && PrepareOutcome(s).Planned?
    ensures var c := PrepareOutcome(s).commit;
            && CommitValid(c)
            && c.buffer.width as int == ExactSize(s.desired.width, c.scale)
            && c.buffer.height as int == ExactSize(s.desired.height, c.scale)
  {
    var scale := Effective(s.desiredScale, s.fractional);
    SideOk(s.desired.width, scale);
    SideOk(s.desired.height, scale);
    WholeScale(scale);
  }

  lemma SideOk(logical: u32, scale: u32)
    ensures var d := BufferDimension(logical, scale);
            d.Some? ==> d.value == ScaledRegister(logical, scale) && d.value as int == ExactSize(logical, scale)
                        && 0 < d.value <= MAX_I32
  {
    ScaledExact(logical, scale);
  }

  lemma WholeScale(scale: nat)
    ensures scale % DENOMINATOR == 0 ==> Ceiling(scale) == scale / DENOMINATOR && Ceiling(scale) * DENOMINATOR == scale
  {
  }

  lemma PrepareOk(s: Surface)
    requires SurfaceOk(s)
    ensures SurfaceOk(Prepare(s))
  {
    if PrepareOutcome(s).Planned? { PlannedOk(s); }
  }

  /** Preparing fails exactly when a counter is spent or a size leaves the protocol's range. */
  lemma PrepareFails(s: Surface)
    requires SurfaceOk(s)
    ensures PrepareOutcome(s).Overflow? <==>
            var scale := Effective(s.desiredScale, s.fractional);
            CommitDue(s) && (s.nextGeneration == MAX_U64 || scale > MAX_U32 ||
                             ExactSize(s.desired.width, scale) > MAX_I32
                                 || ExactSize(s.desired.height, scale) > MAX_I32)
  {
    var scale := Effective(s.desiredScale, s.fractional);
    if scale <= MAX_U32 {
      ScaledExact(s.desired.width, scale);
      ScaledExact(s.desired.height, scale);
      Positive(s.desired.width, scale);
      Positive(s.desired.height, scale);
    }
  }

  lemma Positive(a: int, b: int)
    requires a > 0 && b > 0
    ensures a * b > 0
  {
  }

  lemma SurfaceStepOk(s: Surface, e: Event)
    requires SurfaceOk(s)
    ensures SurfaceOk(Step(s, e))
  {
    match e
    case Plan => PrepareOk(s);
    case _ =>
  }

  lemma ConfigureOk(w: World, serial: u32)
    requires Inv(w) && ConfigureAccepted(w.surface)
    ensures HistoryOk(World(SurfaceConfigure(w.surface, serial), w.history.(received := w.history.received + [serial])))
  {
  }

  lemma SendOk(w: World, c: Commit)
    requires Inv(w) && Submittable(w.surface, c)
    ensures HistoryOk(World(Submit(w.surface, c), Record(w.history, w.surface, Send(c))))
  {
  }

  lemma DoneOk(w: World, generation: u64)
    requires Inv(w) && DoneAccepted(w.surface, generation)
    ensures HistoryOk(World(FrameDone(w.surface, generation),
                            w.history.(outstanding := w.history.outstanding - {generation})))
  {
  }

  /** The history does not notice an event that neither configures, submits nor completes a callback. */
  predicate Unnoticed(s: Surface, t: Surface) {
    s.configured == t.configured && s.pending == t.pending && s.callback == t.callback
  }

  lemma UnnoticedOk(w: World, t: Surface)
    requires HistoryOk(w) && Unnoticed(w.surface, t)
    ensures HistoryOk(World(t, w.history))
  {
  }

  lemma OtherEvents(s: Surface, e: Event)
    requires e.Configure? ==> !ConfigureAccepted(s)
    requires e.Send? ==> !Submittable(s, e.commit)
    requires e.Done? ==> !DoneAccepted(s, e.generation)
    ensures Unnoticed(s, Step(s, e)) && forall h :: Record(h, s, e) == h
  {
  }

  lemma HistoryStepOk(w: World, e: Event)
    requires Inv(w)
    ensures HistoryOk(World(Step(w.surface, e), Record(w.history, w.surface, e)))
  {
    if e.Configure? && ConfigureAccepted(w.surface) {
      ConfigureOk(w, e.serial);
    } else if e.Send? && Submittable(w.surface, e.commit) {
      SendOk(w, e.commit);
    } else if e.Done? && DoneAccepted(w.surface, e.generation) {
      DoneOk(w, e.generation);
    } else {
      OtherEvents(w.surface, e);
      UnnoticedOk(w, Step(w.surface, e));
    }
  }

  lemma StepOk(w: World, e: Event)
    requires Inv(w)
    ensures Inv(World(Step(w.surface, e), Record(w.history, w.surface, e)))
  {
    SurfaceStepOk(w.surface, e);
    HistoryStepOk(w, e);
  }

  lemma {:induction false} RunOk(extent: Extent, fractional: bool, events: seq<Event>)
    requires ExtentValid(extent)
    ensures Inv(Run(extent, fractional, events))
  {
    if events != [] {
      RunOk(extent, fractional, events[..|events| - 1]);
      StepOk(Run(extent, fractional, events[..|events| - 1]), events[|events| - 1]);
    }
  }

  // ---------------------------------------------------------------- guarantees

  /** The first submitted commit carries a serial; every serial is the latest received and acknowledged once. */
  lemma SerialsAcknowledged(extent: Extent, fractional: bool, events: seq<Event>)
    requires ExtentValid(extent)
    ensures SubmissionsOk(Run(extent, fractional, events).history)
  {
    RunOk(extent, fractional, events);
  }

  /** Every commit prepared in any run is valid, its buffer exactly the rounded-up scaled extent. */
  lemma EveryPlanValid(extent: Extent, fractional: bool, events: seq<Event>)
    requires ExtentValid(extent) && PrepareOutcome(Run(extent, fractional, events).surface).Planned?
    ensures var c := PrepareOutcome(Run(extent, fractional, events).surface).commit;
            && CommitValid(c)
            && c.buffer.width as int == ExactSize(c.logical.width, c.scale)
            && c.buffer.height as int == ExactSize(c.logical.height, c.scale)
  {
    RunOk(extent, fractional, events);
    PlannedOk(Run(extent, fractional, events).surface);
  }

  /** At most one frame callback is outstanding, and none when a commit asks for one. */
  lemma OneCallback(extent: Extent, fractional: bool, events: seq<Event>, c: Commit)
    requires ExtentValid(extent)
    ensures var w := Run(extent, fractional, events);
            && |w.history.outstanding| <= 1
            && (Submittable(w.surface, c) && c.wantsFrame ==> w.history.outstanding == {})
  {
    RunOk(extent, fractional, events);
  }

  /** A configured, clean surface with nothing pending shows what was asked for. */
  lemma SettledShowsDesired(extent: Extent, fractional: bool, events: seq<Event>)
    requires ExtentValid(extent) && Settled(Run(extent, fractional, events).surface)
    ensures var s := Run(extent, fractional, events).surface;
            s.applied == s.desired && s.appliedScale == Effective(s.desiredScale, s.fractional)
  {
    RunOk(extent, fractional, events);
  }

  /** Whatever is submitted describes the state of that moment. */
  lemma SubmitsCurrent(extent: Extent, fractional: bool, events: seq<Event>, c: Commit)
    requires ExtentValid(extent) && Submittable(Run(extent, fractional, events).surface, c)
    ensures var s := Run(extent, fractional, events).surface;
            c.logical == s.desired && c.scale == Effective(s.desiredScale, s.fractional) && c.serial == s.pending
                && CommitValid(c)
  {
    RunOk(extent, fractional, events);
  }

  function RunFrom(s: Surface, events: seq<Event>): Surface
    decreases |events|
  {
    if events == [] then s else RunFrom(Step(s, events[0]), events[1..])
  }

  /** A plan survives until it is submitted, dropped, or overtaken by a change of state. */
  predicate Stands(s: Surface, c: Commit) {
    s.prepared == Some(c)
  }

  lemma StepGrows(s: Surface, e: Event)
    ensures s.revision <= Step(s, e).revision && s.nextGeneration <= Step(s, e).nextGeneration
  {
  }

  lemma StepOverturned(s: Surface, c: Commit, e: Event)
    requires c.generation < s.nextGeneration && !Stands(s, c)
    ensures !Stands(Step(s, e), c)
  {
  }

  lemma {:induction false} NeverAgain(s: Surface, c: Commit, events: seq<Event>)
    requires SurfaceOk(s) && c.generation < s.nextGeneration && !Stands(s, c)
    ensures !Stands(RunFrom(s, events), c)
    decreases |events|
  {
    if events != [] {
      var next := Step(s, events[0]);
      SurfaceStepOk(s, events[0]);
      StepGrows(s, events[0]);
      StepOverturned(s, c, events[0]);
      NeverAgain(next, c, events[1..]);
    }
  }

  lemma {:induction false} RunFromOk(s: Surface, events: seq<Event>)
    requires SurfaceOk(s)
    ensures SurfaceOk(RunFrom(s, events)) && s.revision <= RunFrom(s, events).revision
    ensures s.nextGeneration <= RunFrom(s, events).nextGeneration
    decreases |events|
  {
    if events != [] {
      var next := Step(s, events[0]);
      SurfaceStepOk(s, events[0]);
      StepGrows(s, events[0]);
      RunFromOk(next, events[1..]);
    }
  }

  /** An effective configure, scale change or buffer loss makes a new revision. */
  lemma ChangesAdvance(s: Surface, e: Event)
    requires (e.Configure? || e.Scale? || e.Lost?) && Step(s, e) != s
    ensures Step(s, e).revision == s.revision + 1
  {
  }

  /**
   A plan that an effective configure, scale change or buffer loss overtakes is never submitted,
   whatever happens between the plan and the change and however the run goes on.
   */
  lemma StalePlanRefused(extent: Extent, fractional: bool, events: seq<Event>, between: seq<Event>, e: Event,
                         later: seq<Event>)
    requires ExtentValid(extent) && (e.Configure? || e.Scale? || e.Lost?)
    requires var s := Run(extent, fractional, events).surface;
             var t := RunFrom(Prepare(s), between);
             PrepareOutcome(s).Planned? && Step(t, e) != t
    ensures var s := Run(extent, fractional, events).surface;
            !Submittable(RunFrom(Step(RunFrom(Prepare(s), between), e), later), PrepareOutcome(s).commit)
  {
    RunOk(extent, fractional, events);
    var s := Run(extent, fractional, events).surface;
    var c := PrepareOutcome(s).commit;
    PrepareOk(s);
    RunFromOk(Prepare(s), between);
    var t := RunFrom(Prepare(s), between);
    SurfaceStepOk(t, e);
    StepGrows(t, e);
    ChangesAdvance(t, e);
    assert !Stands(Step(t, e), c);
    NeverAgain(Step(t, e), c, later);
  }
}
