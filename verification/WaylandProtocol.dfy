/**
 The Wayland surface engine (src/platform/wayland.cpp): configure, prepare, submit and frame
 callbacks, as step functions with the history a compositor would see.
 */
module WaylandProtocol {
  import opened Common

  type u32 = x: int | 0 <= x < 0x1_0000_0000
  type u64 = x: int | 0 <= x < 0x1_0000_0000_0000_0000

  const MAX_U32: nat := 0xffff_ffff
  const MAX_I32: nat := 0x7fff_ffff
  const DENOMINATOR: nat := 120

  // ---------------------------------------------------------------- scale arithmetic

  /** What a 64-bit unsigned register keeps of a value. */
  function Wrap(x: nat): u64 {
    x % 0x1_0000_0000_0000_0000
  }

  /** Division rounding up, on unbounded numbers. */
  function Ceiling(x: nat): (r: nat)
    ensures DENOMINATOR * r >= x && DENOMINATOR * (r - 1) < x
  {
    (x + (DENOMINATOR - 1)) / DENOMINATOR
  }

  /** The rounded-up extent computed in 64-bit arithmetic, before its range check. */
  function ScaledRegister(logical: u32, numerator: u64): u64 {
    Wrap(Wrap(logical * numerator) + (DENOMINATOR - 1)) / DENOMINATOR
  }

  lemma ProductBound(a: int, b: int, m: int, n: int)
    requires 0 <= a <= m && 0 <= b <= n
    ensures 0 <= a * b <= m * n
  {
    assert a * b <= m * b;
  }

  /** The exact size of a scaled side, rounded up. */
  function ExactSize(logical: u32, numerator: u64): nat {
    ProductBound(logical, numerator, logical, numerator);
    Ceiling(logical * numerator)
  }

  /** No intermediate value overflows while the numerator fits in 32 bits. */
  lemma ScaledExact(logical: u32, numerator: u64)
    requires numerator <= MAX_U32
    ensures ScaledRegister(logical, numerator) as int == ExactSize(logical, numerator)
  {
    ProductBound(logical, numerator, MAX_U32, MAX_U32);
  }

  /** checked_buffer_dimension: None when the result leaves the protocol's range. */
  function BufferDimension(logical: u32, numerator: u64): Option<u32> {
    var rounded := ScaledRegister(logical, numerator);
    if rounded == 0 || rounded > MAX_I32 then None else Some(rounded)
  }

  // ---------------------------------------------------------------- data

  datatype Extent = Extent(width: u32, height: u32)

  predicate ExtentValid(e: Extent) {
    0 < e.width <= MAX_I32 && 0 < e.height <= MAX_I32
  }

  datatype Commit = Commit(
    generation: u64, revision: u64, serial: Option<u32>, logical: Extent, buffer: Extent,
    bufferScale: u32, scale: u32, viewporter: bool, wantsFrame: bool)

  /** WaylandCommit::valid. */
  predicate CommitValid(c: Commit) {
    && c.generation != 0 && c.revision != 0 && ExtentValid(c.logical) && ExtentValid(c.buffer)
    && 0 < c.bufferScale <= MAX_I32 && c.scale != 0
    && ScaledRegister(c.logical.width, c.scale) == c.buffer.width
    && ScaledRegister(c.logical.height, c.scale) == c.buffer.height
    && (if c.viewporter then c.bufferScale == 1
        else c.scale % DENOMINATOR == 0 && c.bufferScale == c.scale / DENOMINATOR)
  }

  datatype Surface = Surface(
    desired: Extent, applied: Extent, stagedWidth: u32, stagedHeight: u32, desiredScale: u32, appliedScale: u32,
    pending: Option<u32>, prepared: Option<Commit>, revision: u64, nextGeneration: u64, callback: u64,
    fractional: bool, started: bool, configured: bool, dirty: bool, demand: bool)

  function Initial(extent: Extent, fractional: bool): Surface {
    Surface(extent, extent, 0, 0, DENOMINATOR, DENOMINATOR, None, None, 1, 1, 0, fractional, false, false, false, false)
  }

  // ---------------------------------------------------------------- steps

  function BeginInitial(s: Surface): Surface {
    s.(started := true)
  }

  function ToplevelConfigure(s: Surface, width: u32, height: u32): Surface {
    if width > MAX_I32 || height > MAX_I32 then s else s.(stagedWidth := width, stagedHeight := height)
  }

  /** advance_revision; the caller checked that the counter is not spent. */
  function Advance(s: Surface): Surface
    requires s.revision < MAX_U64
  {
    s.(revision := s.revision + 1, prepared := None)
  }

  predicate ConfigureAccepted(s: Surface) {
    s.started && s.revision < MAX_U64
  }

  function SurfaceConfigure(s: Surface, serial: u32): Surface {
    if !ConfigureAccepted(s) then s
    else
      Advance(s).(desired := Extent(if s.stagedWidth != 0 then s.stagedWidth else s.desired.width,
                                    if s.stagedHeight != 0 then s.stagedHeight else s.desired.height),
                  stagedWidth := 0, stagedHeight := 0, pending := Some(serial), dirty := true)
  }

  function PreferredScale(s: Surface, numerator: u32): Surface {
    if numerator == 0 || s.desiredScale == numerator || s.revision == MAX_U64 then s
    else Advance(s).(desiredScale := numerator, dirty := s.dirty || s.configured || s.pending.Some?)
  }

  function RequestFrame(s: Surface): Surface {
    s.(demand := true)
  }

  function BufferLost(s: Surface): Surface {
    if (!s.configured && s.pending.None?) || s.revision == MAX_U64 then s else Advance(s).(dirty := true)
  }

  /** The scale a commit will use: whole multiples unless fractional scaling is supported. */
  function Effective(scale: u32, fractional: bool): (r: nat)
    ensures scale > 0 ==> r > 0
    ensures !fractional ==> r % DENOMINATOR == 0
    ensures r >= scale && r < scale + DENOMINATOR
  {
    if fractional then scale else Ceiling(scale) * DENOMINATOR
  }

  predicate WantsFrame(s: Surface) {
    s.demand && s.callback == 0
  }

  /** Whether there is anything to commit. */
  predicate CommitDue(s: Surface) {
    && s.started && (s.configured || s.pending.Some?) && s.prepared.None?
    && (s.dirty || s.pending.Some? || WantsFrame(s))
  }

  datatype Outcome = Nothing | Overflow | Planned(commit: Commit)

  function PrepareOutcome(s: Surface): Outcome {
    var scale := Effective(s.desiredScale, s.fractional);
    if !CommitDue(s) then Nothing
    else if s.nextGeneration == MAX_U64 || scale > MAX_U32 then Overflow
    else
      var width, height := BufferDimension(s.desired.width, scale), BufferDimension(s.desired.height, scale);
      if width.None? || height.None? then Overflow
      else
        Planned(Commit(s.nextGeneration, s.revision, s.pending, s.desired, Extent(width.value, height.value),
                       if s.fractional then 1 else Ceiling(scale), scale, s.fractional, WantsFrame(s)))
  }

  function Prepare(s: Surface): Surface {
    var outcome := PrepareOutcome(s);
    if outcome.Planned? then s.(prepared := Some(outcome.commit), nextGeneration := s.nextGeneration + 1) else s
  }

  predicate Submittable(s: Surface, c: Commit) {
    s.prepared == Some(c) && c.revision == s.revision
  }

  function Submit(s: Surface, c: Commit): Surface {
    if !Submittable(s, c) then s
    else
      s.(applied := s.desired, appliedScale := c.scale, pending := None, dirty := false, configured := true,
         prepared := None, callback := if c.wantsFrame then c.generation else s.callback,
         demand := if c.wantsFrame then false else s.demand)
  }

  function Discard(s: Surface, c: Commit): Surface {
    if s.prepared != Some(c) then s else s.(prepared := None, dirty := true)
  }

  predicate DoneAccepted(s: Surface, generation: u64) {
    generation != 0 && s.callback == generation
  }

  function FrameDone(s: Surface, generation: u64): Surface {
    if DoneAccepted(s, generation) then s.(callback := 0) else s
  }

  // ---------------------------------------------------------------- runs

  datatype Event =
    | Begin
    | Toplevel(width: u32, height: u32)
    | Configure(serial: u32)
    | Scale(numerator: u32)
    | Demand
    | Lost
    | Plan
    | Send(commit: Commit)
    | Drop(commit: Commit)
    | Done(generation: u64)

  function Step(s: Surface, e: Event): Surface {
    match e
    case Begin => BeginInitial(s)
    case Toplevel(width, height) => ToplevelConfigure(s, width, height)
    case Configure(serial) => SurfaceConfigure(s, serial)
    case Scale(numerator) => PreferredScale(s, numerator)
    case Demand => RequestFrame(s)
    case Lost => BufferLost(s)
    case Plan => Prepare(s)
    case Send(c) => Submit(s, c)
    case Drop(c) => Discard(s, c)
    case Done(g) => FrameDone(s, g)
  }

  /** A commit with the number of configures received before it. */
  datatype Submission = Submission(commit: Commit, configures: nat)

  /** What the compositor sees. */
  datatype History = History(received: seq<u32>, submitted: seq<Submission>, outstanding: set<u64>)

  function Record(h: History, s: Surface, e: Event): History {
    match e
    case Configure(serial) => if ConfigureAccepted(s) then h.(received := h.received + [serial]) else h
    case Send(c) =>
      if !Submittable(s, c) then h
      else
        h.(submitted := h.submitted + [Submission(c, |h.received|)],
           outstanding := if c.wantsFrame then h.outstanding + {c.generation} else h.outstanding)
    case Done(g) => if DoneAccepted(s, g) then h.(outstanding := h.outstanding - {g}) else h
    case _ => h
  }

  datatype World = World(surface: Surface, history: History)

  function Run(extent: Extent, fractional: bool, events: seq<Event>): World {
    if events == [] then World(Initial(extent, fractional), History([], [], {}))
    else
      var before, e := Run(extent, fractional, events[..|events| - 1]), events[|events| - 1];
      World(Step(before.surface, e), Record(before.history, before.surface, e))
  }
}
