/**
 The render object tree and its meaning: what a full recursive paint draws, and what the
 recorder of one repaint boundary writes down (src/rendering.cpp, record_boundary).
 */
module RenderTree {
  import opened Common
  import opened Layers

  type Id = nat

  /**
   One RenderObject as far as painting can see it.  `content` is what paint() draws at the
   origin, `clip` is paint_clip() at the origin, `range` is paint_child_range() (None is the
   default "all children"), `role` what it is as a child and takes as children.  `level` numbers
   objects so that a child is always below its parent: it stands for the absence of parent cycles.
   */
  datatype Node = Node(
    parent: Option<Id>,
    children: seq<Id>,
    boundary: bool,
    offset: Offset,
    content: seq<Command>,
    clip: Option<Rect>,
    range: Option<(nat, nat)>,
    role: Role,
    level: nat)

  datatype Kind = Box | Sliver

  /** What an object is, which kind of children it accepts, and whether it takes one at most. */
  datatype Role = Role(kind: Kind, accepts: Option<Kind>, single: bool)

  /** validate_child_count. */
  predicate CountOk(role: Role, count: nat) {
    role.single ==> count <= 1
  }

  /** validate_child_protocol. */
  predicate ProtocolOk(parent: Role, child: Role) {
    parent.accepts == Some(child.kind)
  }

  type Tree = map<Id, Node>

  predicate RangeOk(n: Node) {
    n.range.None? || n.range.value.0 <= n.range.value.1 <= |n.children|
  }

  function Painted(n: Node): seq<Id> {
    if n.range.None? then n.children
    else if RangeOk(n) then n.children[n.range.value.0..n.range.value.1]
    else []
  }

  lemma PaintedChild(n: Node, i: nat)
    requires i < |Painted(n)|
    ensures Painted(n)[i] in n.children
  {
  }

  ghost predicate WellFormed(t: Tree) {
    && (forall p, c | p in t && c in t[p].children ::
          c in t && t[c].parent == Some(p) && t[c].level < t[p].level)
    && (forall c {:trigger ParentLinked(t, c)} | c in t :: ParentLinked(t, c))
    && (forall n | n in t :: DrawsOnly(t[n].content))
  }

  predicate ParentLinked(t: Tree, c: Id)
    requires c in t
  {
    t[c].parent.Some? ==> t[c].parent.value in t && c in t[t[c].parent.value].children
  }

  /** `x` is `a` or one of its descendants. */
  predicate Contains(t: Tree, a: Id, x: Id)
    requires WellFormed(t) && a in t
    decreases t[a].level
  {
    x == a || exists c :: c in t[a].children && Contains(t, c, x)
  }

  /** `x` is recorded into the chunks of `a`: no other boundary lies on the way down. */
  ghost predicate InRegion(t: Tree, a: Id, x: Id)
    requires WellFormed(t) && a in t
    decreases t[a].level
  {
    x == a || exists c :: c in t[a].children && !t[c].boundary && InRegion(t, c, x)
  }

  lemma {:induction false} ContainsUp(t: Tree, a: Id, x: Id)
    requires WellFormed(t) && a in t && Contains(t, a, x) && a != x
    ensures x in t && t[x].parent.Some? && Contains(t, a, t[x].parent.value)
    decreases t[a].level
  {
    var c :| c in t[a].children && Contains(t, c, x);
    if c == x {
    } else {
      ContainsUp(t, c, x);
    }
  }

  lemma {:induction false} ContainsDown(t: Tree, a: Id, x: Id)
    requires WellFormed(t) && a in t && x in t && t[x].parent.Some? && Contains(t, a, t[x].parent.value)
    ensures Contains(t, a, x)
    decreases t[a].level
  {
    var p := t[x].parent.value;
    assert ParentLinked(t, x);
    if p == a {
      assert Contains(t, x, x);
    } else {
      var c :| c in t[a].children && Contains(t, c, p);
      ContainsDown(t, c, x);
    }
  }

  lemma {:induction false} ContainsTransitive(t: Tree, a: Id, b: Id, c: Id)
    requires WellFormed(t) && a in t && b in t && Contains(t, a, b) && Contains(t, b, c)
    ensures Contains(t, a, c)
    decreases t[a].level
  {
    if a == b {
    } else {
      var k :| k in t[a].children && Contains(t, k, b);
      ContainsTransitive(t, k, b, c);
    }
  }

  lemma {:induction false} RegionUp(t: Tree, a: Id, x: Id)
    requires WellFormed(t) && a in t && InRegion(t, a, x) && a != x
    ensures x in t && !t[x].boundary && t[x].parent.Some? && InRegion(t, a, t[x].parent.value)
    decreases t[a].level
  {
    var c :| c in t[a].children && !t[c].boundary && InRegion(t, c, x);
    if c == x {
    } else {
      RegionUp(t, c, x);
    }
  }

  lemma {:induction false} RegionDown(t: Tree, a: Id, x: Id)
    requires WellFormed(t) && a in t && x in t && !t[x].boundary
    requires t[x].parent.Some? && InRegion(t, a, t[x].parent.value)
    ensures InRegion(t, a, x)
    decreases t[a].level
  {
    var p := t[x].parent.value;
    assert ParentLinked(t, x);
    if p == a {
      assert InRegion(t, x, x);
    } else {
      var c :| c in t[a].children && !t[c].boundary && InRegion(t, c, p);
      RegionDown(t, c, x);
    }
  }

  // ---------------------------------------------------------------- full paint

  function ClipPush(n: Node, at: Offset): seq<Command> {
    if n.clip.Some? then [PushClip(ShiftRect(n.clip.value, at))] else []
  }

  function ClipPop(n: Node): seq<Command> {
    if n.clip.Some? then [PopClip] else []
  }

  /** The reference: the commands of painting `id` and everything below it at `at`. */
  ghost function Paint(t: Tree, id: Id, at: Offset): seq<Command>
    requires WellFormed(t) && id in t
    decreases t[id].level, |Painted(t[id])| + 1
  {
    var n := t[id];
    ClipPush(n, at) + ShiftAll(n.content, at) + PaintKids(t, id, |Painted(n)|, at) + ClipPop(n)
  }

  /** Painting the first `k` children in the paint range of `id`. */
  ghost function PaintKids(t: Tree, id: Id, k: nat, at: Offset): seq<Command>
    requires WellFormed(t) && id in t && k <= |Painted(t[id])|
    decreases t[id].level, k
  {
    if k == 0 then []
    else PaintKids(t, id, k - 1, at) + PaintKid(t, id, k - 1, at)
  }

  /** Painting child number `k` of the paint range of `id` where it sits. */
  ghost function PaintKid(t: Tree, id: Id, k: nat, at: Offset): seq<Command>
    requires WellFormed(t) && id in t && k < |Painted(t[id])|
    decreases t[id].level, k
  {
    var c := Painted(t[id])[k];
    Paint(t, c, Plus(at, t[c].offset))
  }

  lemma {:induction false} PaintShift(t: Tree, id: Id, at: Offset, move: Offset)
    requires WellFormed(t) && id in t
    ensures Paint(t, id, Plus(at, move)) == ShiftAll(Paint(t, id, at), move)
    decreases t[id].level, |Painted(t[id])| + 1
  {
    var n := t[id];
    var open, own, kids := ClipPush(n, at), ShiftAll(n.content, at), PaintKids(t, id, |Painted(n)|, at);
    PaintKidsShift(t, id, |Painted(n)|, at, move);
    ShiftTwice(n.content, at, move);
    ShiftFour(open, own, kids, ClipPop(n), move);
  }

  lemma {:induction false} PaintKidsShift(t: Tree, id: Id, k: nat, at: Offset, move: Offset)
    requires WellFormed(t) && id in t && k <= |Painted(t[id])|
    ensures PaintKids(t, id, k, Plus(at, move)) == ShiftAll(PaintKids(t, id, k, at), move)
    decreases t[id].level, k
  {
    if k == 0 {
    } else {
      PaintKidsShift(t, id, k - 1, at, move);
      PaintKidShift(t, id, k - 1, at, move);
      ShiftConcat(PaintKids(t, id, k - 1, at), PaintKid(t, id, k - 1, at), move);
    }
  }

  lemma {:induction false} PaintKidShift(t: Tree, id: Id, k: nat, at: Offset, move: Offset)
    requires WellFormed(t) && id in t && k < |Painted(t[id])|
    ensures PaintKid(t, id, k, Plus(at, move)) == ShiftAll(PaintKid(t, id, k, at), move)
    decreases t[id].level, k
  {
    var c := Painted(t[id])[k];
    PaintShift(t, c, Plus(at, t[c].offset), move);
    assert Plus(Plus(at, move), t[c].offset) == Plus(Plus(at, t[c].offset), move);
  }

  /** A full paint closes every clip it opens. */
  lemma {:induction false} PaintBalanced(t: Tree, id: Id, at: Offset, d: nat)
    requires WellFormed(t) && id in t
    ensures ClipDepth(Paint(t, id, at), d) == d
    decreases t[id].level, |Painted(t[id])| + 1
  {
    var n := t[id];
    var open, own, kids := ClipPush(n, at), ShiftAll(n.content, at), PaintKids(t, id, |Painted(n)|, at);
    var inner: nat := if n.clip.Some? then d + 1 else d;
    assert ClipDepth(open, d) == inner;
    DrawsKeepDepth(own, inner);
    PaintKidsBalanced(t, id, |Painted(n)|, at, inner);
    ClipDepthConcat(open, own, d);
    ClipDepthConcat(open + own, kids, d);
    ClipDepthConcat(open + own + kids, ClipPop(n), d);
    assert ClipDepth(ClipPop(n), inner) == d;
  }

  lemma {:induction false} PaintKidsBalanced(t: Tree, id: Id, k: nat, at: Offset, d: nat)
    requires WellFormed(t) && id in t && k <= |Painted(t[id])|
    ensures ClipDepth(PaintKids(t, id, k, at), d) == d
    decreases t[id].level, k
  {
    if k == 0 {
    } else {
      PaintKidsBalanced(t, id, k - 1, at, d);
      PaintKidBalanced(t, id, k - 1, at, d);
      ClipDepthConcat(PaintKids(t, id, k - 1, at), PaintKid(t, id, k - 1, at), d);
    }
  }

  lemma {:induction false} PaintKidBalanced(t: Tree, id: Id, k: nat, at: Offset, d: nat)
    requires WellFormed(t) && id in t && k < |Painted(t[id])|
    ensures ClipDepth(PaintKid(t, id, k, at), d) == d
    decreases t[id].level, k
  {
    var c := Painted(t[id])[k];
    PaintBalanced(t, c, Plus(at, t[c].offset), d);
  }

  // ---------------------------------------------------------------- boundary recording

  /** BoundaryChunk: what a repaint boundary retains between frames. */
  datatype Chunk =
    | Recorded(commands: seq<Command>)
    | ChildSlot(id: Id, at: Offset)
    | ClipBegin(rect: Rect)
    | ClipEnd

  /** Chunks up to the grouping of consecutive commands into display lists. */
  datatype Atom =
    | Draw(command: Command)
    | Slot(id: Id, at: Offset)
    | Begin(rect: Rect)
    | End

  function Draws(cs: seq<Command>): seq<Atom> {
    seq(|cs|, i requires 0 <= i < |cs| => Draw(cs[i]))
  }

  function AtomsOf(chunks: seq<Chunk>): seq<Atom> {
    if chunks == [] then []
    else AtomsOf(chunks[..|chunks| - 1]) + ChunkAtoms(chunks[|chunks| - 1])
  }

  /** What recording the region of `id` at `at` must produce; nested boundaries become slots. */
  ghost function Record(t: Tree, id: Id, at: Offset): seq<Atom>
    requires WellFormed(t) && id in t
    decreases t[id].level, |Painted(t[id])| + 1
  {
    var n := t[id];
    RecordBegin(n, at) + Draws(ShiftAll(n.content, at)) + RecordKids(t, id, |Painted(n)|, at) + RecordEnd(n)
  }

  ghost function RecordKids(t: Tree, id: Id, k: nat, at: Offset): seq<Atom>
    requires WellFormed(t) && id in t && k <= |Painted(t[id])|
    decreases t[id].level, k
  {
    if k == 0 then []
    else RecordKids(t, id, k - 1, at) + RecordKid(t, id, k - 1, at)
  }

  /** What the recording holds for child number `k`: a slot for a nested boundary, else its own recording. */
  ghost function RecordKid(t: Tree, id: Id, k: nat, at: Offset): seq<Atom>
    requires WellFormed(t) && id in t && k < |Painted(t[id])|
    decreases t[id].level, k
  {
    var c := Painted(t[id])[k];
    var place := Plus(at, t[c].offset);
    if t[c].boundary then [Slot(c, place)] else Record(t, c, place)
  }

  function RecordBegin(n: Node, at: Offset): seq<Atom> {
    if n.clip.Some? then [Begin(ShiftRect(n.clip.value, at))] else []
  }

  function RecordEnd(n: Node): seq<Atom> {
    if n.clip.Some? then [End] else []
  }

  /** Slots name boundaries further down, and recorded commands never touch the clip stack. */
  ghost predicate Tidy(t: Tree, atoms: seq<Atom>, level: nat) {
    forall a | a in atoms ::
      match a
      case Slot(id, _) => id in t && t[id].boundary && t[id].level < level
      case Draw(command) => !command.PushClip? && !command.PopClip?
      case _ => true
  }

  lemma {:induction false} RecordTidy(t: Tree, id: Id, at: Offset)
    requires WellFormed(t) && id in t
    ensures Tidy(t, Record(t, id, at), t[id].level)
    decreases t[id].level, |Painted(t[id])| + 1
  {
    RecordKidsTidy(t, id, |Painted(t[id])|, at);
    var own := ShiftAll(t[id].content, at);
    forall a | a in Draws(own) ensures a.Draw? && !a.command.PushClip? && !a.command.PopClip? {
      var i :| 0 <= i < |own| && a == Draw(own[i]);
      assert t[id].content[i] in t[id].content;
    }
  }

  lemma {:induction false} RecordKidsTidy(t: Tree, id: Id, k: nat, at: Offset)
    requires WellFormed(t) && id in t && k <= |Painted(t[id])|
    ensures Tidy(t, RecordKids(t, id, k, at), t[id].level)
    decreases t[id].level, k
  {
    if k == 0 {
    } else {
      RecordKidsTidy(t, id, k - 1, at);
      RecordKidTidy(t, id, k - 1, at);
    }
  }

  lemma {:induction false} RecordKidTidy(t: Tree, id: Id, k: nat, at: Offset)
    requires WellFormed(t) && id in t && k < |Painted(t[id])|
    ensures Tidy(t, RecordKid(t, id, k, at), t[id].level)
    decreases t[id].level, k
  {
    var c := Painted(t[id])[k];
    if !t[c].boundary { RecordTidy(t, c, Plus(at, t[c].offset)); }
  }

  function ChunkAtoms(chunk: Chunk): seq<Atom> {
    match chunk
    case Recorded(commands) => Draws(commands)
    case ChildSlot(id, at) => [Slot(id, at)]
    case ClipBegin(rect) => [Begin(rect)]
    case ClipEnd => [End]
  }

  lemma AddChunk(chunks: seq<Chunk>, chunk: Chunk)
    ensures AtomsOf(chunks + [chunk]) == AtomsOf(chunks) + ChunkAtoms(chunk)
  {
    assert (chunks + [chunk])[..|chunks|] == chunks;
  }

  lemma {:induction false} AtomsConcat(a: seq<Chunk>, b: seq<Chunk>)
    ensures AtomsOf(a + b) == AtomsOf(a) + AtomsOf(b)
  {
    if b == [] {
      assert a + b == a;
    } else {
      var b', last := b[..|b| - 1], b[|b| - 1];
      AtomsConcat(a, b');
      assert (a + b)[..|a + b| - 1] == a + b';
      Associate(AtomsOf(a), AtomsOf(b'), ChunkAtoms(last));
    }
  }

  /** How a slot is filled when nothing is retained: by a full paint of the nested boundary. */
  ghost function Fresh(t: Tree): (Id, Offset) -> seq<Command>
    requires WellFormed(t)
  {
    (id, at) => if id in t then Paint(t, id, at) else []
  }

  /** The commands an atom list stands for when `fill` says what each slot draws. */
  ghost function Denote(atoms: seq<Atom>, fill: (Id, Offset) -> seq<Command>): seq<Command> {
    if atoms == [] then []
    else Denote(atoms[..|atoms| - 1], fill) + DenoteAtom(atoms[|atoms| - 1], fill)
  }

  ghost function DenoteAtom(a: Atom, fill: (Id, Offset) -> seq<Command>): seq<Command> {
    match a
    case Draw(command) => [command]
    case Slot(id, at) => fill(id, at)
    case Begin(rect) => [PushClip(rect)]
    case End => [PopClip]
  }

  lemma {:induction false} DenoteConcat(a: seq<Atom>, b: seq<Atom>, fill: (Id, Offset) -> seq<Command>)
    ensures Denote(a + b, fill) == Denote(a, fill) + Denote(b, fill)
  {
    if b == [] {
      assert a + b == a;
    } else {
      var b' := b[..|b| - 1];
      DenoteConcat(a, b', fill);
      assert (a + b)[..|a + b| - 1] == a + b';
      Associate(Denote(a, fill), Denote(b', fill), DenoteAtom(b[|b| - 1], fill));
    }
  }

  lemma {:induction false} DenoteDraws(cs: seq<Command>, fill: (Id, Offset) -> seq<Command>)
    ensures Denote(Draws(cs), fill) == cs
  {
    if cs == [] {
    } else {
      DenoteDraws(cs[..|cs| - 1], fill);
      assert Draws(cs)[..|cs| - 1] == Draws(cs[..|cs| - 1]);
    }
  }

  lemma DenoteOne(a: Atom, fill: (Id, Offset) -> seq<Command>)
    ensures Denote([a], fill) == DenoteAtom(a, fill)
  {
    assert [a][..0] == [];
  }

  /** Recording loses nothing: filling the slots of a recording gives the full paint. */
  lemma {:induction false} DenoteRecord(t: Tree, id: Id, at: Offset)
    requires WellFormed(t) && id in t
    ensures Denote(Record(t, id, at), Fresh(t)) == Paint(t, id, at)
    decreases t[id].level, |Painted(t[id])| + 1
  {
    var n, f := t[id], Fresh(t);
    var begin, own, kids, end := RecordBegin(n, at), Draws(ShiftAll(n.content, at)),
                                 RecordKids(t, id, |Painted(n)|, at), RecordEnd(n);
    forall k: nat | k < |Painted(n)| ensures Denote(RecordKid(t, id, k, at), f) == PaintKid(t, id, k, at) {
      DenoteRecordKid(t, id, k, at);
    }
    DenoteRecordKids(t, id, |Painted(n)|, at, f);
    DenoteDraws(ShiftAll(n.content, at), f);
    if n.clip.Some? {
      DenoteOne(Begin(ShiftRect(n.clip.value, at)), f);
      DenoteOne(End, f);
    }
    DenoteConcat(begin, own, f);
    DenoteConcat(begin + own, kids, f);
    DenoteConcat(begin + own + kids, end, f);
  }

  lemma {:induction false} DenoteRecordKids(t: Tree, id: Id, k: nat, at: Offset, fill: (Id, Offset) -> seq<Command>)
    requires WellFormed(t) && id in t && k <= |Painted(t[id])|
    requires forall i: nat | i < k :: Denote(RecordKid(t, id, i, at), fill) == PaintKid(t, id, i, at)
    ensures Denote(RecordKids(t, id, k, at), fill) == PaintKids(t, id, k, at)
  {
    if k == 0 {
    } else {
      DenoteRecordKids(t, id, k - 1, at, fill);
      DenoteConcat(RecordKids(t, id, k - 1, at), RecordKid(t, id, k - 1, at), fill);
    }
  }

  lemma {:induction false} DenoteRecordKid(t: Tree, id: Id, k: nat, at: Offset)
    requires WellFormed(t) && id in t && k < |Painted(t[id])|
    ensures Denote(RecordKid(t, id, k, at), Fresh(t)) == PaintKid(t, id, k, at)
    decreases t[id].level, k
  {
    var c := Painted(t[id])[k];
    var place := Plus(at, t[c].offset);
    if t[c].boundary { DenoteOne(Slot(c, place), Fresh(t)); } else { DenoteRecord(t, c, place); }
  }

  lemma SplitAtoms(list: seq<Chunk>, i: nat)
    requires i < |list|
    ensures AtomsOf(list[..i + 1]) == AtomsOf(list[..i]) + ChunkAtoms(list[i])
    ensures AtomsOf(list) == AtomsOf(list[..i + 1]) + AtomsOf(list[i + 1..])
  {
    SplitAt(list, i);
    AddChunk(list[..i], list[i]);
    AtomsConcat(list[..i + 1], list[i + 1..]);
  }

  lemma TidyPart(t: Tree, a: seq<Atom>, b: seq<Atom>, c: seq<Atom>, level: nat)
    requires Tidy(t, a + b + c, level)
    ensures Tidy(t, b, level)
  {
    forall x | x in b ensures x in a + b + c {}
  }

  /**
   Reading a recording chunk by chunk: the next chunk is tidy, and the clip stack cannot
   underflow at it because the whole recording is balanced.
   */
  lemma RecordingPrefix(t: Tree, b: Id, list: seq<Chunk>, i: nat)
    requires WellFormed(t) && b in t && i < |list| && AtomsOf(list) == Record(t, b, ORIGIN)
    ensures Tidy(t, ChunkAtoms(list[i]), t[b].level)
    ensures AtomsOf(list[..i + 1]) == AtomsOf(list[..i]) + ChunkAtoms(list[i])
    ensures ClipDepth(Denote(AtomsOf(list[..i + 1]), Fresh(t)), 0) >= 0
  {
    SplitAtoms(list, i);
    RecordTidy(t, b, ORIGIN);
    TidyPart(t, AtomsOf(list[..i]), ChunkAtoms(list[i]), AtomsOf(list[i + 1..]), t[b].level);
    BalancedPrefix(t, b, AtomsOf(list[..i + 1]), AtomsOf(list[i + 1..]));
  }

  lemma BalancedPrefix(t: Tree, b: Id, head: seq<Atom>, tail: seq<Atom>)
    requires WellFormed(t) && b in t && head + tail == Record(t, b, ORIGIN)
    ensures ClipDepth(Denote(head, Fresh(t)), 0) >= 0
  {
    var f := Fresh(t);
    DenoteConcat(head, tail, f);
    DenoteRecord(t, b, ORIGIN);
    PaintBalanced(t, b, ORIGIN, 0);
    ClipDepthConcat(Denote(head, f), Denote(tail, f), 0);
  }

  // ---------------------------------------------------------------- locality of edits

  /**
   What one object contributes to a recording is unchanged: its own drawing attributes, and
   where its children sit.  Parent links and levels may differ, and so may its own offset,
   which is its parent's concern.
   */
  ghost predicate DrawsAlike(old_: Tree, t: Tree, y: Id)
    requires y in t
  {
    && y in old_
    && old_[y].(parent := None, level := 0, offset := ORIGIN) == t[y].(parent := None, level := 0, offset := ORIGIN)
    && forall c | c in t[y].children ::
         c in t && c in old_ && old_[c].offset == t[c].offset && old_[c].boundary == t[c].boundary
  }

  /** `t` is `old_` edited at `x` only, as far as drawing goes. */
  ghost predicate EditedAt(old_: Tree, t: Tree, x: Id) {
    forall y | y in t && y != x :: DrawsAlike(old_, t, y)
  }

  lemma {:induction false} PaintLocal(old_: Tree, t: Tree, x: Id, id: Id, at: Offset)
    requires WellFormed(old_) && WellFormed(t) && EditedAt(old_, t, x)
    requires id in t && !Contains(t, id, x)
    ensures id in old_ && Paint(old_, id, at) == Paint(t, id, at)
    decreases t[id].level, |Painted(t[id])| + 1
  {
    PaintKidsLocal(old_, t, x, id, |Painted(t[id])|, at);
  }

  lemma {:induction false} PaintKidsLocal(old_: Tree, t: Tree, x: Id, id: Id, k: nat, at: Offset)
    requires WellFormed(old_) && WellFormed(t) && EditedAt(old_, t, x)
    requires id in t && !Contains(t, id, x) && k <= |Painted(t[id])|
    ensures id in old_ && Painted(old_[id]) == Painted(t[id])
    ensures PaintKids(old_, id, k, at) == PaintKids(t, id, k, at)
    decreases t[id].level, k
  {
    if k == 0 {
    } else {
      var c := Painted(t[id])[k - 1];
      assert c in t[id].children;
      assert c != x by { assert Contains(t, c, c); }
      PaintKidsLocal(old_, t, x, id, k - 1, at);
      PaintLocal(old_, t, x, c, Plus(at, t[c].offset));
    }
  }

  lemma {:induction false} RecordLocal(old_: Tree, t: Tree, x: Id, id: Id, at: Offset)
    requires WellFormed(old_) && WellFormed(t) && EditedAt(old_, t, x)
    requires id in t && !InRegion(t, id, x)
    ensures id in old_ && Record(old_, id, at) == Record(t, id, at)
    decreases t[id].level, |Painted(t[id])| + 1
  {
    RecordKidsLocal(old_, t, x, id, |Painted(t[id])|, at);
  }

  lemma {:induction false} RecordKidsLocal(old_: Tree, t: Tree, x: Id, id: Id, k: nat, at: Offset)
    requires WellFormed(old_) && WellFormed(t) && EditedAt(old_, t, x)
    requires id in t && !InRegion(t, id, x) && k <= |Painted(t[id])|
    ensures id in old_ && Painted(old_[id]) == Painted(t[id])
    ensures RecordKids(old_, id, k, at) == RecordKids(t, id, k, at)
    decreases t[id].level, k
  {
    if k == 0 {
    } else {
      var c := Painted(t[id])[k - 1];
      assert c in t[id].children;
      RecordKidsLocal(old_, t, x, id, k - 1, at);
      assert c in old_[id].children;
      if t[c].boundary {
      } else {
        assert c != x by { assert InRegion(t, c, c); }
        RecordLocal(old_, t, x, c, Plus(at, t[c].offset));
      }
    }
  }
}
