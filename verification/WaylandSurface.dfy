/** WaylandSurfaceState with its fields updated in place; every method takes the protocol step it implements. */
module WaylandSurface {
  import opened Common
  import opened P = WaylandProtocol
  import R = WaylandRuns

  class WaylandSurfaceState {
    var desired: Extent
    var applied: Extent
    var stagedWidth: u32
    var stagedHeight: u32
    var desiredScale: u32
    var appliedScale: u32
    var pending: Option<u32>
    var prepared: Option<Commit>
    var revision: u64
    var nextGeneration: u64
    var callback: u64
    const fractional: bool
    var started: bool
    var configured: bool
    var dirty: bool
    var demand: bool

    ghost function View(): Surface
      reads this
    {
      Surface(desired, applied, stagedWidth, stagedHeight, desiredScale, appliedScale, pending, prepared, revision,
              nextGeneration, callback, fractional, started, configured, dirty, demand)
    }

    constructor (extent: Extent, supportsFractional: bool)
      ensures View() == Initial(extent, supportsFractional)
    {
      desired, applied, stagedWidth, stagedHeight, desiredScale, appliedScale := extent, extent, 0, 0, 120, 120;
      pending, prepared, revision, nextGeneration, callback := None, None, 1, 1, 0;
      fractional, started, configured, dirty, demand := supportsFractional, false, false, false, false;
    }

    method BeginInitialCommit() returns (first: bool)
      modifies this`started
      ensures first == !old(started) && View() == BeginInitial(old(View()))
    {
      if started { return false; }
      started := true;
      return true;
    }

    method ReceiveToplevelConfigure(width: u32, height: u32) returns (ok: bool)
      modifies this`stagedWidth, this`stagedHeight
      ensures ok == (width <= MAX_I32 && height <= MAX_I32) && View() == ToplevelConfigure(old(View()), width, height)
    {
      if width > MAX_I32 || height > MAX_I32 { return false; }
      stagedWidth, stagedHeight := width, height;
      return true;
    }

    /** advance_revision; false when the counter is spent. */
    method AdvanceRevision() returns (ok: bool)
      modifies this`revision, this`prepared
      ensures ok == (old(revision) != MAX_U64) && View() == if ok then Advance(old(View())) else old(View())
    {
      if revision == MAX_U64 { return false; }
      revision := revision + 1;
      prepared := None;
      return true;
    }

    method ReceiveSurfaceConfigure(serial: u32) returns (ok: bool)
      modifies this
      ensures ok == ConfigureAccepted(old(View())) && View() == SurfaceConfigure(old(View()), serial)
    {
      if !started { return false; }
      var advanced := AdvanceRevision();
      if !advanced { return false; }
      if stagedWidth != 0 { desired := desired.(width := stagedWidth); }
      if stagedHeight != 0 { desired := desired.(height := stagedHeight); }
      stagedWidth, stagedHeight := 0, 0;
      pending, dirty := Some(serial), true;
      return true;
    }

    method SetPreferredScale(numerator: u32) returns (ok: bool)
      modifies this
      ensures ok == (numerator != 0 && (old(desiredScale) == numerator || old(revision) != MAX_U64))
      ensures View() == PreferredScale(old(View()), numerator)
    {
      if numerator == 0 { return false; }
      if desiredScale == numerator { return true; }
      var advanced := AdvanceRevision();
      if !advanced { return false; }
      desiredScale := numerator;
      if configured || pending.Some? { dirty := true; }
      return true;
    }

    method RequestFrame()
      modifies this`demand
      ensures View() == P.RequestFrame(old(View()))
    {
      demand := true;
    }

    method BufferLost() returns (ok: bool)
      modifies this
      ensures ok == ((!old(configured) && old(pending).None?) || old(revision) != MAX_U64)
      ensures View() == P.BufferLost(old(View()))
    {
      if !configured && pending.None? { return true; }
      var advanced := AdvanceRevision();
      if !advanced { return false; }
      dirty := true;
      return true;
    }

    method PrepareCommit() returns (outcome: Outcome)
      modifies this`prepared, this`nextGeneration
      ensures outcome == PrepareOutcome(old(View())) && View() == Prepare(old(View()))
    {
      if !started || (!configured && pending.None?) || prepared.Some? { return Nothing; }
      var wantsFrame := demand && callback == 0;
      if !dirty && pending.None? && !wantsFrame { return Nothing; }
      if nextGeneration == MAX_U64 { return Overflow; }
      var scale := if fractional then desiredScale else (desiredScale + (DENOMINATOR - 1)) / DENOMINATOR * DENOMINATOR;
      if scale > MAX_U32 { return Overflow; }
      var integerScale := (scale + (DENOMINATOR - 1)) / DENOMINATOR;
      var width, height := BufferDimension(desired.width, scale), BufferDimension(desired.height, scale);
      if width.None? || height.None? { return Overflow; }
      var commit := Commit(nextGeneration, revision, pending, desired, Extent(width.value, height.value),
                           if fractional then 1 else integerScale, scale, fractional, wantsFrame);
      prepared, nextGeneration := Some(commit), nextGeneration + 1;
      return Planned(commit);
    }

    method SubmitCommit(commit: Commit) returns (ok: bool)
      modifies this
      ensures ok == Submittable(old(View()), commit) && View() == Submit(old(View()), commit)
    {
      if prepared != Some(commit) || commit.revision != revision { return false; }
      applied, appliedScale := desired, commit.scale;
      pending, dirty, configured := None, false, true;
      if commit.wantsFrame { callback, demand := commit.generation, false; }
      prepared := None;
      return true;
    }

    method DiscardCommit(commit: Commit) returns (ok: bool)
      modifies this`prepared, this`dirty
      ensures ok == (old(prepared) == Some(commit)) && View() == Discard(old(View()), commit)
    {
      if prepared != Some(commit) { return false; }
      prepared, dirty := None, true;
      return true;
    }

    method FrameDone(generation: u64) returns (ok: bool)
      modifies this`callback
      ensures ok == DoneAccepted(old(View()), generation) && View() == P.FrameDone(old(View()), generation)
    {
      if generation == 0 || callback != generation { return false; }
      callback := 0;
      return true;
    }

    method Handle(e: Event)
      modifies this
      ensures View() == Step(old(View()), e)
    {
      match e
      case Begin => var first := BeginInitialCommit();
      case Toplevel(width, height) => var ok := ReceiveToplevelConfigure(width, height);
      case Configure(serial) => var ok := ReceiveSurfaceConfigure(serial);
      case Scale(numerator) => var ok := SetPreferredScale(numerator);
      case Demand => RequestFrame();
      case Lost => var ok := BufferLost();
      case Plan => var outcome := PrepareCommit();
      case Send(commit) => var ok := SubmitCommit(commit);
      case Drop(commit) => var ok := DiscardCommit(commit);
      case Done(generation) => var ok := FrameDone(generation);
    }
  }

  /**
   Drive a new surface, refused for an invalid extent, through any script: a settled result shows the
   desired extent at the effective scale.
   */
  method Drive(extent: Extent, fractional: bool, events: seq<Event>)
    returns (constructed: bool, settled: bool, shown: Extent, scale: u32)
    ensures constructed == ExtentValid(extent)
    ensures constructed ==>
              var s := P.Run(extent, fractional, events).surface;
              && settled == R.Settled(s) && shown == s.applied && scale == s.appliedScale
              && (settled ==> shown == s.desired && scale == Effective(s.desiredScale, s.fractional))
  {
    constructed, settled, shown, scale := ExtentValid(extent), false, extent, 0;
    if !constructed { return; }
    var surface := new WaylandSurfaceState(extent, fractional);
    for n := 0 to |events|
      invariant fresh(surface) && surface.View() == P.Run(extent, fractional, events[..n]).surface
    {
      assert events[..n + 1][..n] == events[..n];
      surface.Handle(events[n]);
    }
    assert events[..|events|] == events;
    settled := surface.configured && !surface.dirty && surface.pending.None?;
    shown, scale := surface.applied, surface.appliedScale;
    if settled { R.SettledShowsDesired(extent, fractional, events); }
  }
}
