/**
 The retained painter (src/rendering.cpp): dirty flags and dirty sets, recorded boundary
 chunks, composed layers, and composite_frame with its early return.  RenderOwner keeps the
 per-object cache fields of the source as sets and maps over object ids.
 */
module RetainedPainting {
  import opened Common
  import opened Layers
  import opened RenderTree
  import opened PaintRanges
  import opened TreeEdits

  /** A boundary that has been recorded and not been invalidated holds a current recording. */
  ghost predicate RecordingFresh(t: Tree, needsPaint: set<Id>, chunks: map<Id, seq<Chunk>>,
                                 retained: map<Id, Layer>, a: Id)
    requires WellFormed(t) && a in t
  {
    a !in needsPaint && a in retained ==>
      a in chunks && AtomsOf(chunks[a]) == Record(t, a, ORIGIN) && Recordable(t, a)
  }

  /** A boundary without dirty flags holds a layer that draws exactly its full paint. */
  ghost predicate LayerFresh(t: Tree, needsPaint: set<Id>, needsCompositing: set<Id>,
                             retained: map<Id, Layer>, a: Id)
    requires WellFormed(t) && a in t
  {
    a !in needsPaint && a !in needsCompositing && a in retained ==>
      Flatten(retained[a], ORIGIN) == Paint(t, a, ORIGIN) && Paintable(t, a)
  }

  predicate IsBoundary(t: Tree, a: Id) {
    a in t && t[a].boundary
  }

  /** The builder and chunk list of record_boundary; `atoms` is what they hold together. */
  class Recorder {
    var builder: seq<Command>
    var chunks: seq<Chunk>
    var painted: seq<Id>
    ghost var atoms: seq<Atom>

    ghost predicate Valid()
      reads this
    {
      atoms == AtomsOf(chunks) + Draws(builder)
    }

    constructor ()
      ensures Valid() && atoms == [] && painted == []
    {
      builder, chunks, painted, atoms := [], [], [], [];
    }

    method Flush()
      requires Valid()
      modifies this`builder, this`chunks
      ensures Valid() && builder == [] && atoms == AtomsOf(chunks)
    {
      if builder != [] {
        AddChunk(chunks, Recorded(builder));
        chunks := chunks + [Recorded(builder)];
        builder := [];
      }
    }

    method Emit(chunk: Chunk, ghost atom: Atom)
      requires Valid() && ChunkAtoms(chunk) == [atom]
      modifies this`builder, this`chunks, this`atoms
      ensures Valid() && atoms == old(atoms) + [atom]
    {
      Flush();
      AddChunk(chunks, chunk);
      chunks := chunks + [chunk];
      atoms := atoms + [atom];
    }

    method PaintSelf(id: Id, n: Node, at: Offset)
      requires Valid()
      modifies this
      ensures Valid() && atoms == old(atoms) + Draws(ShiftAll(n.content, at))
      ensures painted == old(painted) + [id]
    {
      var own := ShiftAll(n.content, at);
      assert Draws(builder + own) == Draws(builder) + Draws(own);
      Associate(AtomsOf(chunks), Draws(builder), Draws(own));
      builder := builder + own;
      painted := painted + [id];
      atoms := atoms + Draws(own);
    }
  }

  /** One open clip of compose_boundary: its rectangle (None for the bottom frame) and layers. */
  datatype Frame = Frame(clip: Option<Rect>, layers: seq<Layer>)

  function FrameCommands(f: Frame): seq<Command> {
    (if f.clip.Some? then [PushClip(f.clip.value)] else []) + FlattenAll(f.layers, ORIGIN)
  }

  function StackCommands(frames: seq<Frame>): seq<Command> {
    if frames == [] then []
    else StackCommands(frames[..|frames| - 1]) + FrameCommands(frames[|frames| - 1])
  }

  function AddLayer(frames: seq<Frame>, layer: Layer): seq<Frame>
    requires frames != []
  {
    var top := frames[|frames| - 1];
    frames[..|frames| - 1] + [top.(layers := top.layers + [layer])]
  }

  lemma AddLayerCommands(frames: seq<Frame>, layer: Layer)
    requires frames != []
    ensures StackCommands(AddLayer(frames, layer)) == StackCommands(frames) + Flatten(layer, ORIGIN)
  {
    var rest, top := frames[..|frames| - 1], frames[|frames| - 1];
    var clip := if top.clip.Some? then [PushClip(top.clip.value)] else [];
    FlattenSnoc(top.layers, layer, ORIGIN);
    Associate(clip, FlattenAll(top.layers, ORIGIN), Flatten(layer, ORIGIN));
    Associate(StackCommands(rest), FrameCommands(top), Flatten(layer, ORIGIN));
    assert AddLayer(frames, layer)[..|frames| - 1] == rest;
  }

  lemma ShiftNowhere(cs: seq<Command>)
    ensures ShiftAll(cs, ORIGIN) == cs
  {
    forall i | 0 <= i < |cs| ensures Shift(cs[i], ORIGIN) == cs[i] {}
  }

  /** Closing the top clip turns its frame into one ClipRect layer of the frame below. */
  lemma CloseClipCommands(frames: seq<Frame>)
    requires |frames| > 1 && frames[|frames| - 1].clip.Some?
    ensures var top := frames[|frames| - 1];
            StackCommands(AddLayer(frames[..|frames| - 1], ClipRect(top.clip.value, Container(top.layers)))) ==
            StackCommands(frames) + [PopClip]
  {
    var top := frames[|frames| - 1];
    var layer := ClipRect(top.clip.value, Container(top.layers));
    AddLayerCommands(frames[..|frames| - 1], layer);
    assert ShiftRect(top.clip.value, ORIGIN) == top.clip.value;
    assert Flatten(layer, ORIGIN) == FrameCommands(top) + [PopClip];
  }

  /** The open frames hold exactly the commands drawn so far, one frame per open clip. */
  ghost predicate Composed(frames: seq<Frame>, drawn: seq<Command>) {
    && frames != [] && frames[0].clip.None?
    && (forall k | 0 < k < |frames| :: frames[k].clip.Some?)
    && StackCommands(frames) == drawn
    && ClipDepth(drawn, 0) == |frames| - 1
  }

  /** The first `i` chunks have been composed, and could be. */
  ghost predicate ChunksComposed(t: Tree, list: seq<Chunk>, i: nat, frames: seq<Frame>)
    requires WellFormed(t) && i <= |list|
  {
    SlotsPaintable(t, AtomsOf(list[..i])) && Composed(frames, Denote(AtomsOf(list[..i]), Fresh(t)))
  }

  lemma NothingComposed(t: Tree, list: seq<Chunk>)
    requires WellFormed(t)
    ensures ChunksComposed(t, list, 0, [Frame(None, [])])
  {
    assert list[..0] == [] && AtomsOf([]) == [];
    assert StackCommands([Frame(None, [])]) == StackCommands([]) + FrameCommands(Frame(None, []));
  }

  lemma ComposeLayer(frames: seq<Frame>, drawn: seq<Command>, layer: Layer)
    requires Composed(frames, drawn)
    requires ClipDepth(Flatten(layer, ORIGIN), |frames| - 1) == |frames| - 1
    ensures Composed(AddLayer(frames, layer), drawn + Flatten(layer, ORIGIN))
  {
    AddLayerCommands(frames, layer);
    ClipDepthConcat(drawn, Flatten(layer, ORIGIN), 0);
  }

  lemma ComposeOpen(frames: seq<Frame>, drawn: seq<Command>, rect: Rect)
    requires Composed(frames, drawn)
    ensures Composed(frames + [Frame(Some(rect), [])], drawn + [PushClip(rect)])
  {
    assert (frames + [Frame(Some(rect), [])])[..|frames|] == frames;
    assert (drawn + [PushClip(rect)])[..|drawn|] == drawn;
  }

  function CloseTop(frames: seq<Frame>): seq<Frame>
    requires |frames| > 1 && frames[|frames| - 1].clip.Some?
  {
    var clipped := frames[|frames| - 1];
    AddLayer(frames[..|frames| - 1], ClipRect(clipped.clip.value, Container(clipped.layers)))
  }

  lemma ComposeClose(frames: seq<Frame>, drawn: seq<Command>)
    requires Composed(frames, drawn) && ClipDepth(drawn + [PopClip], 0) >= 0
    ensures |frames| > 1 && Composed(CloseTop(frames), drawn + [PopClip])
  {
    assert (drawn + [PopClip])[..|drawn|] == drawn;
    CloseClipCommands(frames);
  }

  /** The chunks that need no other boundary: recorded commands and clip marks. */
  function ComposeLocal(chunk: Chunk, frames: seq<Frame>): seq<Frame>
    requires frames != [] && !chunk.ChildSlot?
    requires chunk.ClipEnd? ==> |frames| > 1 && frames[|frames| - 1].clip.Some?
  {
    match chunk
    case Recorded(commands) => AddLayer(frames, DisplayList(commands))
    case ClipBegin(rect) => frames + [Frame(Some(rect), [])]
    case ClipEnd => CloseTop(frames)
  }

  lemma ComposeLocalOk(t: Tree, chunk: Chunk, frames: seq<Frame>, level: nat, drawn: seq<Command>)
    requires WellFormed(t) && !chunk.ChildSlot? && Tidy(t, ChunkAtoms(chunk), level) && Composed(frames, drawn)
    requires ClipDepth(drawn + Denote(ChunkAtoms(chunk), Fresh(t)), 0) >= 0
    ensures chunk.ClipEnd? ==> |frames| > 1 && frames[|frames| - 1].clip.Some?
    ensures Composed(ComposeLocal(chunk, frames), drawn + Denote(ChunkAtoms(chunk), Fresh(t)))
  {
    match chunk
    case Recorded(commands) => ComposeRecorded(t, commands, frames, level, drawn);
    case ClipBegin(rect) =>
      DenoteOne(Begin(rect), Fresh(t));
      ComposeOpen(frames, drawn, rect);
    case ClipEnd =>
      DenoteOne(End, Fresh(t));
      ComposeClose(frames, drawn);
  }

  lemma ComposeRecorded(t: Tree, commands: seq<Command>, frames: seq<Frame>, level: nat, drawn: seq<Command>)
    requires WellFormed(t) && Tidy(t, Draws(commands), level) && Composed(frames, drawn)
    ensures Composed(AddLayer(frames, DisplayList(commands)), drawn + Denote(Draws(commands), Fresh(t)))
  {
    DrawChunk(t, commands, level, |frames| - 1, Fresh(t));
    ComposeLayer(frames, drawn, DisplayList(commands));
  }

  lemma DrawChunk(t: Tree, commands: seq<Command>, level: nat, depth: nat, fill: (Id, Offset) -> seq<Command>)
    requires Tidy(t, Draws(commands), level)
    ensures Denote(Draws(commands), fill) == commands == Flatten(DisplayList(commands), ORIGIN)
    ensures ClipDepth(commands, depth) == depth
  {
    ShiftNowhere(commands);
    DenoteDraws(commands, fill);
    TidyDraws(t, commands, level);
    DrawsKeepDepth(commands, depth);
  }

  lemma TidyDraws(t: Tree, commands: seq<Command>, level: nat)
    requires Tidy(t, Draws(commands), level)
    ensures forall c | c in commands :: !c.PushClip? && !c.PopClip?
  {
    forall c | c in commands ensures !c.PushClip? && !c.PopClip? {
      var i :| 0 <= i < |commands| && commands[i] == c;
      assert Draws(commands)[i] in Draws(commands);
    }
  }

  /** With the whole recording composed, one frame is left and draws the full paint. */
  lemma AllComposed(t: Tree, b: Id, list: seq<Chunk>, frames: seq<Frame>)
    requires WellFormed(t) && b in t && AtomsOf(list) == Record(t, b, ORIGIN)
    requires Composed(frames, Denote(AtomsOf(list), Fresh(t)))
    ensures |frames| == 1 && Flatten(Container(frames[0].layers), ORIGIN) == Paint(t, b, ORIGIN)
  {
    DenoteRecord(t, b, ORIGIN);
    PaintBalanced(t, b, ORIGIN, 0);
    OneFrame(frames, Paint(t, b, ORIGIN));
  }

  lemma SlotFails(t: Tree, b: Id, list: seq<Chunk>)
    requires WellFormed(t) && b in t && Recordable(t, b) && AtomsOf(list) == Record(t, b, ORIGIN)
    requires !SlotsPaintable(t, AtomsOf(list))
    ensures !Paintable(t, b)
  {
    PaintableBySlots(t, b, ORIGIN);
  }

  lemma WholeComposed(t: Tree, b: Id, list: seq<Chunk>, frames: seq<Frame>)
    requires WellFormed(t) && b in t && Recordable(t, b) && AtomsOf(list) == Record(t, b, ORIGIN)
    requires ChunksComposed(t, list, |list|, frames)
    ensures |frames| == 1 && Flatten(Container(frames[0].layers), ORIGIN) == Paint(t, b, ORIGIN) && Paintable(t, b)
  {
    assert list[..|list|] == list;
    AllComposed(t, b, list, frames);
    PaintableBySlots(t, b, ORIGIN);
  }

  lemma OneFrame(frames: seq<Frame>, cs: seq<Command>)
    requires Composed(frames, cs) && ClipDepth(cs, 0) == 0
    ensures |frames| == 1 && Flatten(Container(frames[0].layers), ORIGIN) == cs
  {
    assert |frames| == 1 && StackCommands(frames) == StackCommands([]) + FrameCommands(frames[0]);
  }

  /** A clean nested boundary may stand in for its own full paint, wherever it is placed. */
  lemma SlotCommands(t: Tree, c: Id, at: Offset, layer: Layer, depth: nat)
    requires WellFormed(t) && c in t && Flatten(layer, ORIGIN) == Paint(t, c, ORIGIN)
    ensures Flatten(OffsetLayer(at, layer), ORIGIN) == Paint(t, c, at) == Denote([Slot(c, at)], Fresh(t))
    ensures ClipDepth(Paint(t, c, at), depth) == depth
  {
    assert Plus(ORIGIN, at) == at;
    FlattenShift(layer, ORIGIN, at);
    PaintShift(t, c, ORIGIN, at);
    PaintBalanced(t, c, at, depth);
    DenoteOne(Slot(c, at), Fresh(t));
  }

  /** The first `k` kids have been recorded after `before`, and could be. */
  ghost predicate KidsRecorded(t: Tree, id: Id, k: nat, at: Offset, before: seq<Atom>, atoms: seq<Atom>)
    requires WellFormed(t) && id in t && k <= |Painted(t[id])|
  {
    KidsPaintable(t, id, k) && atoms == before + RecordKids(t, id, k, at)
  }

  /** More objects were painted, none of them a boundary. */
  predicate Extends(t: Tree, before: seq<Id>, after: seq<Id>) {
    before <= after && forall k | |before| <= k < |after| :: !IsBoundary(t, after[k])
  }

  lemma ExtendsFurther(t: Tree, a: seq<Id>, b: seq<Id>, c: seq<Id>)
    requires Extends(t, a, b) && Extends(t, b, c)
    ensures Extends(t, a, c)
  {
    forall k | |a| <= k < |c| ensures !IsBoundary(t, c[k]) {
      if k < |b| { assert c[k] == b[k]; }
    }
  }

  /** The flags and caches of every object. */
  datatype Caches = Caches(needsPaint: set<Id>, needsCompositing: set<Id>, chunks: map<Id, seq<Chunk>>,
                           retained: map<Id, Layer>)

  predicate SameFor(a: Id, before: Caches, after: Caches) {
    && (a in after.needsPaint <==> a in before.needsPaint)
    && (a in after.needsCompositing <==> a in before.needsCompositing)
    && (a in after.chunks <==> a in before.chunks) && (a in after.chunks ==> after.chunks[a] == before.chunks[a])
    && (a in after.retained <==> a in before.retained)
    && (a in after.retained ==> after.retained[a] == before.retained[a])
  }

  predicate DoneIn(a: Id, c: Caches) {
    a !in c.needsPaint && a !in c.needsCompositing && a in c.retained
  }

  /** The boundaries from `level` up are left alone, and the layer of a clean boundary is never replaced. */
  ghost predicate ChangedBelow(t: Tree, before: Caches, after: Caches, level: nat) {
    forall a {:trigger IsBoundary(t, a)} | IsBoundary(t, a) ::
      (t[a].level >= level ==> SameFor(a, before, after)) &&
      (DoneIn(a, before) ==> DoneIn(a, after) && after.retained[a] == before.retained[a])
  }

  lemma ChangedFurther(t: Tree, a: Caches, b: Caches, c: Caches, level: nat)
    requires ChangedBelow(t, a, b, level) && ChangedBelow(t, b, c, level)
    ensures ChangedBelow(t, a, c, level)
  {
  }

  /** What a recording in progress has: the caches, the objects painted and what they drew. */
  datatype Progress = Progress(caches: Caches, painted: seq<Id>, atoms: seq<Atom>)

  /** From `start` to `now` the first `k` kids of `id` have been recorded. */
  ghost predicate KidsDone(t: Tree, id: Id, k: nat, at: Offset, start: Progress, now: Progress)
    requires WellFormed(t) && id in t && k <= |Painted(t[id])|
  {
    && KidsRecorded(t, id, k, at, start.atoms, now.atoms)
    && Extends(t, start.painted, now.painted)
    && ChangedBelow(t, start.caches, now.caches, t[id].level)
  }

  lemma NextKidDone(t: Tree, id: Id, k: nat, at: Offset, start: Progress, before: Progress, now: Progress)
    requires WellFormed(t) && id in t && k < |Painted(t[id])| && KidsDone(t, id, k, at, start, before)
    requires Extends(t, before.painted, now.painted) && ChangedBelow(t, before.caches, now.caches, t[id].level)
    ensures Extends(t, start.painted, now.painted) && ChangedBelow(t, start.caches, now.caches, t[id].level)
    ensures KidsRecorded(t, id, k + 1, at, start.atoms, now.atoms) ==> KidsDone(t, id, k + 1, at, start, now)
  {
    ExtendsFurther(t, start.painted, before.painted, now.painted);
    ChangedFurther(t, start.caches, before.caches, now.caches, t[id].level);
  }

  class RenderOwner {
    var tree: Tree
    var top: nat
    var nextId: Id
    var needsPaint: set<Id>
    var needsCompositing: set<Id>
    var chunks: map<Id, seq<Chunk>>
    var retained: map<Id, Layer>
    var dirtyPaint: set<Id>
    var dirtyCompositing: set<Id>
    var lastFrame: Option<Layer>

    ghost function CurrentScene(): Scene
      reads this
    {
      Scene(tree, top, nextId)
    }

    ghost predicate Structure()
      reads this
    {
      SceneOk(CurrentScene())
    }

    ghost predicate CachesOk()
      reads this
      requires WellFormed(tree)
    {
      forall a {:trigger IsBoundary(tree, a)} | IsBoundary(tree, a) ::
        RecordingFresh(tree, needsPaint, chunks, retained, a) &&
        LayerFresh(tree, needsPaint, needsCompositing, retained, a)
    }

    /** What is left of CachesOk after an edit at `x` that has not been announced yet. */
    ghost predicate CachesOkApartFrom(x: Id)
      reads this
      requires WellFormed(tree)
    {
      forall a {:trigger IsBoundary(tree, a)} | IsBoundary(tree, a) ::
        (!InRegion(tree, a, x) ==> RecordingFresh(tree, needsPaint, chunks, retained, a)) &&
        (!Contains(tree, a, x) ==> LayerFresh(tree, needsPaint, needsCompositing, retained, a))
    }

    /** The dirty sets never lose track of a dirty root. */
    ghost predicate RootTracked()
      reads this
    {
      && (ROOT in needsPaint ==> ROOT in dirtyPaint)
      && (ROOT !in needsPaint && ROOT in needsCompositing ==> ROOT in dirtyCompositing)
    }

    ghost predicate LastFrameKept()
      reads this
    {
      lastFrame.Some? ==> ROOT in retained && retained[ROOT] == lastFrame.value
    }

    ghost predicate Valid()
      reads this
    {
      Structure() && CachesOk() && RootTracked() && LastFrameKept()
    }

    /** No dirty flag and a retained layer: ensure_boundary leaves such a boundary alone. */
    predicate Done(a: Id)
      reads this
    {
      a !in needsPaint && a !in needsCompositing && a in retained
    }

    constructor (content: seq<Command>)
      requires DrawsOnly(content)
      ensures Valid() && CurrentScene() == InitialScene(content)
    {
      tree := map[ROOT := Node(None, [], true, ORIGIN, content, None, None, ROOT_ROLE, 0)];
      top, nextId := 0, ROOT + 1;
      needsPaint, needsCompositing := {ROOT}, {ROOT};
      chunks, retained := map[], map[];
      dirtyPaint, dirtyCompositing := {ROOT}, {};
      lastFrame := None;
    }

    // -------------------------------------------------------------- invalidation

    /** mark_needs_paint: dirty the path to the nearest boundary, then every boundary above it. */
    method MarkNeedsPaint(x: Id)
      requires Structure() && x in tree && CachesOkApartFrom(x) && RootTracked()
      modifies this`needsPaint, this`needsCompositing, this`dirtyPaint, this`dirtyCompositing
      ensures CachesOk() && RootTracked() && x in needsPaint && old(needsPaint) <= needsPaint
      ensures forall y | y in tree && !Contains(tree, y, x) ::
                (y in needsPaint <==> y in old(needsPaint)) && (y in needsCompositing <==> y in old(needsCompositing))
      decreases top - tree[x].level
    {
      if x !in needsPaint {
        needsPaint, dirtyPaint := needsPaint + {x}, dirtyPaint + {x};
      }
      assert ParentLinked(tree, x);
      if !tree[x].boundary && tree[x].parent.Some? {
        var p := tree[x].parent.value;
        forall a | IsBoundary(tree, a)
          ensures InRegion(tree, a, x) ==> InRegion(tree, a, p)
          ensures Contains(tree, a, x) ==> Contains(tree, a, p)
        {
          if InRegion(tree, a, x) { RegionUp(tree, a, x); }
          if Contains(tree, a, x) { ContainsUp(tree, a, x); }
        }
        forall y | y in tree && Contains(tree, y, p) ensures Contains(tree, y, x) {
          ContainsDown(tree, y, x);
        }
        MarkNeedsPaint(p);
        return;
      }
      forall a | IsBoundary(tree, a) && InRegion(tree, a, x) ensures a == x {
        if a != x { RegionUp(tree, a, x); }
      }
      if tree[x].boundary {
        needsCompositing := needsCompositing - {x};
        MarkAncestors(x);
      } else {
        forall a | IsBoundary(tree, a) ensures !Contains(tree, a, x) {
          if Contains(tree, a, x) { ContainsUp(tree, a, x); }
        }
      }
    }

    /** The ancestor loop of mark_needs_paint. */
    method MarkAncestors(x: Id)
      requires Structure() && x in tree && tree[x].boundary && RootTracked()
      modifies this`needsCompositing, this`dirtyCompositing
      ensures RootTracked() && old(needsCompositing) <= needsCompositing
      ensures forall a | a in needsCompositing && a !in old(needsCompositing) ::
              a in tree && Contains(tree, a, x) && a != x
      ensures forall a | a in tree && tree[a].boundary && a != x && Contains(tree, a, x) :: a in needsCompositing
    {
      var ancestor := tree[x].parent;
      assert ParentLinked(tree, x);
      forall a | a in tree && a != x && Contains(tree, a, x)
        ensures ancestor.Some? && Contains(tree, a, ancestor.value)
      {
        ContainsUp(tree, a, x);
      }
      if ancestor.Some? { ContainsDown(tree, ancestor.value, x); }
      while ancestor.Some?
        invariant ancestor.Some? ==> ancestor.value in tree && Contains(tree, ancestor.value, x) &&
                                     tree[ancestor.value].level > tree[x].level
        invariant RootTracked() && old(needsCompositing) <= needsCompositing
        invariant forall a | a in needsCompositing && a !in old(needsCompositing) ::
                  a in tree && Contains(tree, a, x) && a != x
        invariant forall a | a in tree && tree[a].boundary && a != x && Contains(tree, a, x) ::
                    a in needsCompositing || (ancestor.Some? && Contains(tree, a, ancestor.value))
        decreases if ancestor.Some? then top - tree[ancestor.value].level + 1 else 0
      {
        var p := ancestor.value;
        if tree[p].boundary && p !in needsCompositing {
          needsCompositing, dirtyCompositing := needsCompositing + {p}, dirtyCompositing + {p};
        }
        ancestor := tree[p].parent;
        assert ParentLinked(tree, p);
        forall a | a in tree && a != p && Contains(tree, a, p)
          ensures ancestor.Some? && Contains(tree, a, ancestor.value)
        {
          ContainsUp(tree, a, p);
        }
        if ancestor.Some? {
          ContainsDown(tree, ancestor.value, p);
          ContainsTransitive(tree, ancestor.value, p, x);
        }
      }
    }

    /** mark_needs_layout as painting sees it: mark_needs_paint on the object and on every ancestor. */
    method MarkNeedsLayout(x: Id)
      requires Structure() && x in tree && CachesOkApartFrom(x) && RootTracked()
      modifies this`needsPaint, this`needsCompositing, this`dirtyPaint, this`dirtyCompositing
      ensures CachesOk() && RootTracked() && x in needsPaint && old(needsPaint) <= needsPaint
      decreases top - tree[x].level
    {
      MarkNeedsPaint(x);
      assert ParentLinked(tree, x);
      if tree[x].parent.Some? {
        MarkNeedsLayout(tree[x].parent.value);
      }
    }

    // -------------------------------------------------------------- compositing

    ghost function Cached(): Caches
      reads this
    {
      Caches(needsPaint, needsCompositing, chunks, retained)
    }

    /** Compositing something below `level` changed nothing else since the old state. */
    twostate predicate OnlyBelow(level: nat)
      reads this
    {
      ChangedBelow(tree, old(Cached()), Cached(), level)
    }

    /** ensure_boundary. A false result stands for the exception of an invalid paint range. */
    method EnsureBoundary(b: Id) returns (ok: bool)
      requires Structure() && CachesOk() && RootTracked() && IsBoundary(tree, b)
      modifies this`needsPaint, this`needsCompositing, this`chunks, this`retained, this`dirtyPaint,
               this`dirtyCompositing
      ensures CachesOk() && RootTracked() && OnlyBelow(tree[b].level + if ok then 1 else 0)
      ensures ok <==> Paintable(tree, b)
      ensures ok ==> Done(b)
      decreases tree[b].level, 5
    {
      if b in needsPaint || b !in retained {
        ok := RecordBoundary(b);
      } else if b in needsCompositing {
        ok := ComposeBoundary(b);
      } else {
        ok := true;
      }
    }

    method RecordBoundary(b: Id) returns (ok: bool)
      requires Structure() && CachesOk() && RootTracked() && IsBoundary(tree, b)
      requires b in needsPaint || b !in retained
      modifies this`needsPaint, this`needsCompositing, this`chunks, this`retained, this`dirtyPaint,
               this`dirtyCompositing
      ensures CachesOk() && RootTracked() && OnlyBelow(tree[b].level + if ok then 1 else 0)
      ensures ok <==> Paintable(tree, b)
      ensures ok ==> Done(b)
      decreases tree[b].level, 4
    {
      var recording, painted;
      ok, recording, painted := RecordRegion(b);
      if ok {
        PaintableRecordable(tree, b);
        ok := Install(b, recording, painted);
      }
    }

    method RecordRegion(b: Id) returns (ok: bool, recording: seq<Chunk>, painted: seq<Id>)
      requires Structure() && CachesOk() && RootTracked() && IsBoundary(tree, b)
      modifies this`needsPaint, this`needsCompositing, this`chunks, this`retained, this`dirtyPaint,
               this`dirtyCompositing
      ensures CachesOk() && RootTracked() && OnlyBelow(tree[b].level)
      ensures ok <==> Paintable(tree, b)
      ensures ok ==> AtomsOf(recording) == Record(tree, b, ORIGIN)
      ensures |painted| > 0 && painted[0] == b
      ensures forall k | 0 < k < |painted| :: !IsBoundary(tree, painted[k])
      decreases tree[b].level, 4, 0
    {
      var recorder := new Recorder();
      ok := RecordObject(b, ORIGIN, recorder);
      EmptyPrefix(Record(tree, b, ORIGIN));
      recorder.Flush();
      recording, painted := recorder.chunks, recorder.painted;
    }

    /** The tail of record_boundary: store the chunks, compose, and clear the flags of what was painted. */
    method Install(b: Id, recording: seq<Chunk>, painted: seq<Id>) returns (ok: bool)
      requires Structure() && CachesOk() && RootTracked() && IsBoundary(tree, b)
      requires b in needsPaint || b !in retained
      requires AtomsOf(recording) == Record(tree, b, ORIGIN) && Recordable(tree, b)
      requires |painted| > 0 && painted[0] == b && forall k | 0 < k < |painted| :: !IsBoundary(tree, painted[k])
      modifies this`needsPaint, this`needsCompositing, this`chunks, this`retained, this`dirtyPaint,
               this`dirtyCompositing
      ensures CachesOk() && RootTracked() && OnlyBelow(tree[b].level + if ok then 1 else 0)
      ensures ok <==> Paintable(tree, b)
      ensures ok ==> Done(b)
      decreases tree[b].level, 3
    {
      ok := Replace(b, recording);
      if ok {
        ClearPainted(b, painted);
        assert IsBoundary(tree, ROOT);
      }
    }

    /** Compose from the new chunks; when that fails the old ones come back. */
    method Replace(b: Id, recording: seq<Chunk>) returns (ok: bool)
      requires Structure() && CachesOk() && RootTracked() && IsBoundary(tree, b)
      requires (b in needsPaint || b !in retained) && AtomsOf(recording) == Record(tree, b, ORIGIN)
               && Recordable(tree, b)
      modifies this`needsPaint, this`needsCompositing, this`chunks, this`retained, this`dirtyPaint,
               this`dirtyCompositing
      ensures CachesOk() && RootTracked() && OnlyBelow(tree[b].level + if ok then 1 else 0)
      ensures ok <==> Paintable(tree, b)
      ensures ok ==> b in retained && b !in needsCompositing && Flatten(retained[b], ORIGIN) == Paint(tree, b, ORIGIN)
      ensures ok ==> b in chunks && chunks[b] == recording
      decreases tree[b].level, 2
    {
      var previous := if b in chunks then Some(chunks[b]) else None;
      PutChunks(b, Some(recording));
      ok := ComposeBoundary(b);
      if !ok { PutChunks(b, previous); }
    }

    method PutChunks(b: Id, list: Option<seq<Chunk>>)
      requires WellFormed(tree) && CachesOk() && (b in needsPaint || b !in retained)
      modifies this`chunks
      ensures CachesOk() && (forall a | a != b :: a in chunks <==> a in old(chunks))
              && (forall a | a != b && a in chunks :: chunks[a] == old(chunks)[a])
      ensures if list.Some? then b in chunks && chunks[b] == list.value else b !in chunks
    {
      chunks := if list.Some? then chunks[b := list.value] else chunks - {b};
    }

    method ClearPainted(b: Id, painted: seq<Id>)
      requires |painted| > 0 && painted[0] == b && forall k | 0 < k < |painted| :: !IsBoundary(tree, painted[k])
      modifies this`needsPaint, this`dirtyPaint
      ensures b !in needsPaint
      ensures forall y {:trigger IsBoundary(tree, y)} | IsBoundary(tree, y) && y != b ::
                (y in needsPaint <==> y in old(needsPaint)) && (y in dirtyPaint <==> y in old(dirtyPaint))
    {
      for i := 0 to |painted|
        invariant i > 0 ==> b !in needsPaint
        invariant forall y {:trigger IsBoundary(tree, y)} | IsBoundary(tree, y) && y != b ::
                    (y in needsPaint <==> y in old(needsPaint)) && (y in dirtyPaint <==> y in old(dirtyPaint))
      {
        needsPaint, dirtyPaint := needsPaint - {painted[i]}, dirtyPaint - {painted[i]};
      }
    }

    /** The recursive `record` lambda: paint one object, descend, stop at nested boundaries. */
    method RecordObject(id: Id, at: Offset, recorder: Recorder) returns (ok: bool)
      requires Structure() && CachesOk() && RootTracked() && id in tree && recorder.Valid()
      modifies this`needsPaint, this`needsCompositing, this`chunks, this`retained, this`dirtyPaint,
               this`dirtyCompositing, recorder
      ensures CachesOk() && RootTracked() && OnlyBelow(tree[id].level) && recorder.Valid()
      ensures ok <==> Paintable(tree, id)
      ensures ok ==> recorder.atoms == old(recorder.atoms) + Record(tree, id, at)
      ensures old(recorder.painted) + [id] <= recorder.painted
      ensures forall k | |old(recorder.painted)| < k < |recorder.painted| :: !IsBoundary(tree, recorder.painted[k])
      decreases tree[id].level, 3
    {
      var n := tree[id];
      var clip := if n.clip.Some? then Some(ShiftRect(n.clip.value, at)) else None;
      if clip.Some? {
        recorder.Emit(ClipBegin(clip.value), Begin(clip.value));
      }
      recorder.PaintSelf(id, n, at);
      ghost var before := recorder.atoms;
      ok := RecordChildren(id, at, recorder);
      if ok && clip.Some? {
        recorder.Emit(ClipEnd, End);
      }
      if ok {
        assert before == old(recorder.atoms) + RecordBegin(n, at) + Draws(ShiftAll(n.content, at));
        Regroup(old(recorder.atoms), RecordBegin(n, at), Draws(ShiftAll(n.content, at)),
                RecordKids(tree, id, |Painted(n)|, at), RecordEnd(n));
      }
    }

    method RecordChildren(id: Id, at: Offset, recorder: Recorder) returns (ok: bool)
      requires Structure() && CachesOk() && RootTracked() && id in tree && recorder.Valid()
      modifies this`needsPaint, this`needsCompositing, this`chunks, this`retained, this`dirtyPaint,
               this`dirtyCompositing, recorder
      ensures CachesOk() && RootTracked() && OnlyBelow(tree[id].level) && recorder.Valid()
      ensures ok <==> Paintable(tree, id)
      ensures ok ==> recorder.atoms == old(recorder.atoms) + RecordKids(tree, id, |Painted(tree[id])|, at)
      ensures Extends(tree, old(recorder.painted), recorder.painted)
      decreases tree[id].level, 2, 3
    {
      if !RangeOk(tree[id]) { return false; }
      ok := RecordRange(id, at, recorder);
    }

    /** The loop of `record` over a valid paint range. */
    method RecordRange(id: Id, at: Offset, recorder: Recorder) returns (ok: bool)
      requires Structure() && CachesOk() && RootTracked() && id in tree && recorder.Valid()
      modifies this`needsPaint, this`needsCompositing, this`chunks, this`retained, this`dirtyPaint,
               this`dirtyCompositing, recorder
      ensures CachesOk() && RootTracked() && OnlyBelow(tree[id].level) && recorder.Valid()
      ensures ok <==> KidsPaintable(tree, id, |Painted(tree[id])|)
      ensures ok ==> KidsRecorded(tree, id, |Painted(tree[id])|, at, old(recorder.atoms), recorder.atoms)
      ensures Extends(tree, old(recorder.painted), recorder.painted)
      decreases tree[id].level, 2, 2
    {
      var kids := Painted(tree[id]);
      for i := 0 to |kids|
        invariant CachesOk() && RootTracked() && recorder.Valid()
        invariant KidsDone(tree, id, i, at, old(Held(recorder)), Held(recorder))
      {
        ok := RecordNext(id, i, kids[i], at, recorder, old(Held(recorder)));
        if !ok { return; }
      }
      ok := true;
    }

    ghost function Held(recorder: Recorder): Progress
      reads this, recorder
    {
      Progress(Cached(), recorder.painted, recorder.atoms)
    }

    method RecordNext(id: Id, i: nat, c: Id, at: Offset, recorder: Recorder, ghost start: Progress) returns (ok: bool)
      requires Structure() && CachesOk() && RootTracked() && id in tree && recorder.Valid()
      requires i < |Painted(tree[id])| && Painted(tree[id])[i] == c
      requires KidsDone(tree, id, i, at, start, Held(recorder))
      modifies this`needsPaint, this`needsCompositing, this`chunks, this`retained, this`dirtyPaint,
               this`dirtyCompositing, recorder
      ensures CachesOk() && RootTracked() && recorder.Valid()
      ensures Extends(tree, start.painted, recorder.painted)
              && ChangedBelow(tree, start.caches, Cached(), tree[id].level)
      ensures if ok then KidsDone(tree, id, i + 1, at, start, Held(recorder))
              else !KidsPaintable(tree, id, |Painted(tree[id])|)
      decreases tree[id].level, 2, 1
    {
      ghost var before := Held(recorder);
      ok := RecordChild(id, i, c, at, recorder, start.atoms);
      NextKidDone(tree, id, i, at, start, before, Held(recorder));
    }

    method RecordChild(id: Id, i: nat, c: Id, at: Offset, recorder: Recorder, ghost before: seq<Atom>)
      returns (ok: bool)
      requires Structure() && CachesOk() && RootTracked() && id in tree && recorder.Valid()
      requires i < |Painted(tree[id])| && Painted(tree[id])[i] == c
      requires KidsRecorded(tree, id, i, at, before, recorder.atoms)
      modifies this`needsPaint, this`needsCompositing, this`chunks, this`retained, this`dirtyPaint,
               this`dirtyCompositing, recorder
      ensures CachesOk() && RootTracked() && OnlyBelow(tree[id].level) && recorder.Valid()
      ensures !ok ==> !KidsPaintable(tree, id, |Painted(tree[id])|)
      ensures ok ==> KidsRecorded(tree, id, i + 1, at, before, recorder.atoms)
      ensures Extends(tree, old(recorder.painted), recorder.painted)
      decreases tree[id].level, 2, 0
    {
      PaintedChild(tree[id], i);
      if KidsPaintable(tree, id, |Painted(tree[id])|) { FirstKidsPaintable(tree, id, i + 1, |Painted(tree[id])|); }
      var place := Plus(at, tree[c].offset);
      if tree[c].boundary {
        ok := EnsureBoundary(c);
        if !ok { return; }
        recorder.Emit(ChildSlot(c, place), Slot(c, place));
        Associate(before, RecordKids(tree, id, i, at), [Slot(c, place)]);
      } else {
        ok := RecordObject(c, place, recorder);
        Associate(before, RecordKids(tree, id, i, at), Record(tree, c, place));
      }
    }

    /** compose_boundary: rebuild the retained layer of `b` from its chunks. */
    method ComposeBoundary(b: Id) returns (ok: bool)
      requires Structure() && CachesOk() && RootTracked() && IsBoundary(tree, b)
      requires !Done(b) && b in chunks && AtomsOf(chunks[b]) == Record(tree, b, ORIGIN) && Recordable(tree, b)
      modifies this`needsPaint, this`needsCompositing, this`chunks, this`retained, this`dirtyPaint,
               this`dirtyCompositing
      ensures CachesOk() && RootTracked()
      ensures ok <==> Paintable(tree, b)
      ensures ok ==> b in retained && b !in needsCompositing && Flatten(retained[b], ORIGIN) == Paint(tree, b, ORIGIN)
      ensures OnlyBelow(tree[b].level + if ok then 1 else 0)
      ensures b in chunks && chunks[b] == old(chunks[b]) && (b in needsPaint <==> b in old(needsPaint))
      decreases tree[b].level, 1
    {
      var layers;
      ok, layers := ComposeLayers(b);
      if !ok { return; }
      retained := retained[b := Container(layers)];
      needsCompositing, dirtyCompositing := needsCompositing - {b}, dirtyCompositing - {b};
    }

    /** The chunk loop of compose_boundary, with its stack of open clips. */
    method ComposeLayers(b: Id) returns (ok: bool, layers: seq<Layer>)
      requires Structure() && CachesOk() && RootTracked() && IsBoundary(tree, b)
      requires b in chunks && AtomsOf(chunks[b]) == Record(tree, b, ORIGIN) && Recordable(tree, b)
      modifies this`needsPaint, this`needsCompositing, this`chunks, this`retained, this`dirtyPaint,
               this`dirtyCompositing
      ensures CachesOk() && RootTracked() && OnlyBelow(tree[b].level)
      ensures ok <==> Paintable(tree, b)
      ensures ok ==> Flatten(Container(layers), ORIGIN) == Paint(tree, b, ORIGIN)
      decreases tree[b].level, 0, 2
    {
      var list := chunks[b];
      var frames := [Frame(None, [])];
      layers := [];
      NothingComposed(tree, list);
      for i := 0 to |list|
        invariant CachesOk() && RootTracked() && ChangedBelow(tree, old(Cached()), Cached(), tree[b].level)
        invariant ChunksComposed(tree, list, i, frames)
      {
        ok, frames := ComposeNext(b, list, i, frames, old(Cached()));
        if !ok {
          SlotFails(tree, b, list);
          return;
        }
      }
      WholeComposed(tree, b, list, frames);
      ok, layers := true, frames[0].layers;
    }

    /** One turn of that loop. */
    method ComposeNext(ghost b: Id, list: seq<Chunk>, i: nat, frames: seq<Frame>, ghost start: Caches)
      returns (ok: bool, next: seq<Frame>)
      requires Structure() && CachesOk() && RootTracked() && IsBoundary(tree, b)
      requires AtomsOf(list) == Record(tree, b, ORIGIN) && i < |list| && ChunksComposed(tree, list, i, frames)
      requires ChangedBelow(tree, start, Cached(), tree[b].level)
      modifies this`needsPaint, this`needsCompositing, this`chunks, this`retained, this`dirtyPaint,
               this`dirtyCompositing
      ensures CachesOk() && RootTracked() && ChangedBelow(tree, start, Cached(), tree[b].level)
      ensures if ok then ChunksComposed(tree, list, i + 1, next) else !SlotsPaintable(tree, AtomsOf(list))
      decreases tree[b].level, 0, 1
    {
      ghost var before := Cached();
      RecordingPrefix(tree, b, list, i);
      SlotsSoFar(tree, list, i);
      DenoteConcat(AtomsOf(list[..i]), ChunkAtoms(list[i]), Fresh(tree));
      ok, next := ComposeChunk(list[i], frames, tree[b].level, Denote(AtomsOf(list[..i]), Fresh(tree)));
      ChangedFurther(tree, start, before, Cached(), tree[b].level);
    }

    method ComposeChunk(chunk: Chunk, frames: seq<Frame>, ghost level: nat, ghost drawn: seq<Command>)
      returns (ok: bool, next: seq<Frame>)
      requires Structure() && CachesOk() && RootTracked()
      requires Tidy(tree, ChunkAtoms(chunk), level) && Composed(frames, drawn)
      requires ClipDepth(drawn + Denote(ChunkAtoms(chunk), Fresh(tree)), 0) >= 0
      modifies this`needsPaint, this`needsCompositing, this`chunks, this`retained, this`dirtyPaint,
               this`dirtyCompositing
      ensures CachesOk() && RootTracked() && OnlyBelow(level)
      ensures ok <==> SlotsPaintable(tree, ChunkAtoms(chunk))
      ensures ok ==> Composed(next, drawn + Denote(ChunkAtoms(chunk), Fresh(tree)))
      decreases level, 0, 0
    {
      if chunk.ChildSlot? {
        assert Slot(chunk.id, chunk.at) in ChunkAtoms(chunk);
        var layer;
        ok, layer := SlotLayer(chunk.id, chunk.at, |frames| - 1);
        next := frames;
        if ok {
          ComposeLayer(frames, drawn, layer);
          next := AddLayer(frames, layer);
        }
      } else {
        ComposeLocalOk(tree, chunk, frames, level, drawn);
        ok, next := true, ComposeLocal(chunk, frames);
      }
    }

    method SlotLayer(c: Id, at: Offset, ghost depth: nat) returns (ok: bool, layer: Layer)
      requires Structure() && CachesOk() && RootTracked() && IsBoundary(tree, c)
      modifies this`needsPaint, this`needsCompositing, this`chunks, this`retained, this`dirtyPaint,
               this`dirtyCompositing
      ensures CachesOk() && RootTracked() && OnlyBelow(tree[c].level + 1)
      ensures ok <==> Paintable(tree, c)
      ensures ok ==> Flatten(layer, ORIGIN) == Denote([Slot(c, at)], Fresh(tree))
                     && ClipDepth(Flatten(layer, ORIGIN), depth) == depth
      decreases tree[c].level, 6
    {
      ok := EnsureBoundary(c);
      layer := Container([]);
      if ok {
        SlotCommands(tree, c, at, retained[c], depth);
        layer := OffsetLayer(at, retained[c]);
      }
    }

    /**
     composite_frame, early return included: whatever happened before, the returned layer
     draws the full paint of the current tree, with balanced clips.
     */
    method CompositeFrame() returns (frame: Option<Layer>)
      requires Valid()
      modifies this`needsPaint, this`needsCompositing, this`chunks, this`retained, this`dirtyPaint,
               this`dirtyCompositing, this`lastFrame
      ensures Valid()
      ensures frame.Some? <==> Paintable(tree, ROOT)
      ensures frame.Some? ==> Flatten(frame.value, ORIGIN) == Paint(tree, ROOT, ORIGIN)
      ensures frame.Some? ==> Balanced(Flatten(frame.value, ORIGIN))
      ensures old(Done(ROOT) && lastFrame.Some?) ==> frame == old(lastFrame)
    {
      PaintBalanced(tree, ROOT, ORIGIN, 0);
      assert IsBoundary(tree, ROOT);
      if dirtyPaint == {} && dirtyCompositing == {} && lastFrame.Some? {
        return lastFrame;
      }
      var ok := EnsureBoundary(ROOT);
      if !ok { return None; }
      dirtyPaint, dirtyCompositing := {}, {};
      lastFrame := Some(retained[ROOT]);
      return lastFrame;
    }

    // -------------------------------------------------------------- edits

    /** An edit at `x` spoils at most the caches of the boundaries that record or contain `x`. */
    twostate lemma AfterEdit(x: Id)
      requires old(Valid()) && Structure() && EditedAt(old(tree), tree, x)
      requires old(needsPaint) <= needsPaint && old(needsCompositing) <= needsCompositing
      requires chunks == old(chunks) && retained == old(retained)
      ensures CachesOkApartFrom(x)
    {
      forall a | IsBoundary(tree, a) && a != x
        ensures !InRegion(tree, a, x) ==> RecordingFresh(tree, needsPaint, chunks, retained, a)
        ensures !Contains(tree, a, x) ==> LayerFresh(tree, needsPaint, needsCompositing, retained, a)
      {
        EditUnseen(old(tree), tree, x, a);
        assert IsBoundary(old(tree), a);
      }
      assert x in tree ==> InRegion(tree, x, x) && Contains(tree, x, x);
    }

    /** A setter that changes what paint() draws, and the invalidation that follows it. */
    method Repaint(id: Id, content: seq<Command>, clip: Option<Rect>, range: Option<(nat, nat)>)
      requires Valid() && id in tree && DrawsOnly(content)
      modifies this`tree, this`needsPaint, this`needsCompositing, this`dirtyPaint, this`dirtyCompositing
      ensures Valid() && CurrentScene() == Apply(old(CurrentScene()), Edit.Repaint(id, content, clip, range))
    {
      ApplyOk(CurrentScene(), Edit.Repaint(id, content, clip, range));
      tree := tree[id := tree[id].(content := content, clip := clip, range := range)];
      AfterEdit(id);
      MarkNeedsPaint(id);
    }

    /** The offset assignment of layout_child, announced by the parent when the child is a boundary. */
    method Move(id: Id, offset: Offset)
      requires Valid() && id in tree && tree[id].parent.Some?
      modifies this`tree, this`needsPaint, this`needsCompositing, this`dirtyPaint, this`dirtyCompositing
      ensures Valid() && CurrentScene() == Apply(old(CurrentScene()), Edit.Move(id, offset))
    {
      ApplyOk(CurrentScene(), Edit.Move(id, offset));
      if tree[id].offset == offset {
        assert tree[id := tree[id].(offset := offset)] == tree;
        return;
      }
      var p := tree[id].parent.value;
      tree := tree[id := tree[id].(offset := offset)];
      AfterEdit(p);
      assert ParentLinked(tree, id);
      if tree[id].boundary {
        MarkNeedsPaint(p);
      } else {
        forall a | IsBoundary(tree, a)
          ensures InRegion(tree, a, p) ==> InRegion(tree, a, id)
          ensures Contains(tree, a, p) ==> Contains(tree, a, id)
        {
          if InRegion(tree, a, p) { RegionDown(tree, a, id); }
          if Contains(tree, a, p) { ContainsDown(tree, a, id); }
        }
        MarkNeedsPaint(id);
      }
    }

    /** Registering a new, detached object; its constructor schedules it for painting. */
    method Create(boundary: bool, content: seq<Command>, clip: Option<Rect>, role: Role) returns (id: Id)
      requires Valid() && DrawsOnly(content)
      modifies this`tree, this`nextId, this`needsPaint, this`needsCompositing, this`dirtyPaint
      ensures Valid() && id == old(nextId)
      ensures CurrentScene() == Apply(old(CurrentScene()), Edit.Create(boundary, content, clip, role))
    {
      ApplyOk(CurrentScene(), Edit.Create(boundary, content, clip, role));
      id := nextId;
      tree, nextId := tree[id := Node(None, [], boundary, ORIGIN, content, clip, None, role, 0)], nextId + 1;
      needsPaint, needsCompositing, dirtyPaint := needsPaint + {id}, needsCompositing + {id}, dirtyPaint + {id};
      AfterEdit(id);
      forall a | IsBoundary(tree, a) && a != id ensures !InRegion(tree, a, id) && !Contains(tree, a, id) {
        if InRegion(tree, a, id) { RegionUp(tree, a, id); }
        if Contains(tree, a, id) { ContainsUp(tree, a, id); }
      }
    }

    /** The ancestor walk of set_children that looks for a cycle. */
    method IsAncestor(c: Id, p: Id) returns (found: bool)
      requires Structure() && p in tree && c in tree
      ensures found == Contains(tree, c, p)
    {
      var ancestor := Some(p);
      while ancestor.Some?
        invariant ancestor.Some? ==> ancestor.value in tree
        invariant Contains(tree, c, p) == (ancestor.Some? && Contains(tree, c, ancestor.value))
        decreases if ancestor.Some? then top - tree[ancestor.value].level + 1 else 0
      {
        var a := ancestor.value;
        if a == c { return true; }
        assert ParentLinked(tree, a);
        ancestor := tree[a].parent;
        if Contains(tree, c, a) { ContainsUp(tree, c, a); }
        if ancestor.Some? && Contains(tree, c, ancestor.value) { ContainsDown(tree, c, a); }
      }
      return false;
    }

    /** The validation loop of set_children. */
    method CheckChildren(p: Id, next: seq<Id>) returns (ok: bool)
      requires Structure() && p in tree
      ensures ok == Adoptable(tree, p, next)
    {
      if tree[p].role.single && |next| > 1 { return false; }
      for i := 0 to |next|
        invariant forall k | 0 <= k < i :: AdoptableChild(tree, p, next[k])
        invariant Distinct(next[..i])
      {
        var c := next[i];
        if c !in tree || (tree[c].parent.Some? && tree[c].parent != Some(p)) {
          assert !AdoptableChild(tree, p, next[i]);
          return false;
        }
        if tree[p].role.accepts != Some(tree[c].role.kind) {
          assert !AdoptableChild(tree, p, next[i]);
          return false;
        }
        var cycle := IsAncestor(c, p);
        if cycle {
          assert !AdoptableChild(tree, p, next[i]);
          return false;
        }
        if c in next[..i] { return false; }
      }
      assert next[..|next|] == next;
      return true;
    }

    method SetChildren(p: Id, next: seq<Id>) returns (accepted: bool)
      requires Valid() && p in tree
      modifies this`tree, this`top, this`needsPaint, this`needsCompositing, this`dirtyPaint, this`dirtyCompositing
      ensures Valid() && CurrentScene() == Apply(old(CurrentScene()), Edit.SetChildren(p, next))
      ensures accepted == (old(tree[p].children) == next || Adoptable(old(tree), p, next))
    {
      if tree[p].children == next { return true; }
      accepted := CheckChildren(p, next);
      if accepted { Adopt(p, next); }
    }

    method Adopt(p: Id, next: seq<Id>)
      requires Valid() && Adoptable(tree, p, next) && tree[p].children != next
      modifies this`tree, this`top, this`needsPaint, this`needsCompositing, this`dirtyPaint, this`dirtyCompositing
      ensures Valid() && CurrentScene() == Apply(old(CurrentScene()), Edit.SetChildren(p, next))
    {
      Relink(p, next);
      MarkNeedsLayout(p);
    }

    method Relink(p: Id, next: seq<Id>)
      requires Valid() && Adoptable(tree, p, next) && tree[p].children != next
      modifies this`tree, this`top
      ensures Structure() && p in tree && CachesOkApartFrom(p)
      ensures CurrentScene() == Apply(old(CurrentScene()), Edit.SetChildren(p, next))
    {
      ApplyOk(CurrentScene(), Edit.SetChildren(p, next));
      tree, top := WithChildren(tree, top, p, next), 2 * top + 1;
      AfterEdit(p);
    }

    /** The destructor: leave the parent, orphan the children, and be forgotten by the owner. */
    method Destroy(id: Id)
      requires Valid() && id in tree && id != ROOT
      modifies this`tree, this`needsPaint, this`needsCompositing, this`chunks, this`retained, this`dirtyPaint,
               this`dirtyCompositing
      ensures Valid() && CurrentScene() == Apply(old(CurrentScene()), Edit.Destroy(id))
    {
      Detach(id);
      Forget(id);
    }

    method Detach(id: Id)
      requires Valid() && id in tree && id != ROOT
      modifies this`tree, this`needsPaint, this`needsCompositing, this`dirtyPaint, this`dirtyCompositing
      ensures Valid() && CurrentScene() == Apply(old(CurrentScene()), Edit.Destroy(id)) && id !in tree
    {
      var parent := tree[id].parent;
      Uproot(id);
      Announce(id, parent);
    }

    method Uproot(id: Id)
      requires Valid() && id in tree && id != ROOT
      modifies this`tree
      ensures Structure() && CurrentScene() == Apply(old(CurrentScene()), Edit.Destroy(id)) && id !in tree
      ensures var parent := old(tree)[id].parent;
              (parent.Some? ==> parent.value in tree) && CachesOkApartFrom(if parent.Some? then parent.value else id)
    {
      ApplyOk(CurrentScene(), Edit.Destroy(id));
      assert ParentLinked(tree, id);
      tree := Without(tree, id);
      AfterEdit(Touched(old(CurrentScene()), Edit.Destroy(id)));
    }

    /** The parent of a destroyed object, if it had one, is laid out and painted again. */
    method Announce(id: Id, parent: Option<Id>)
      requires Structure() && RootTracked() && id !in tree && (parent.Some? ==> parent.value in tree)
      requires CachesOkApartFrom(if parent.Some? then parent.value else id)
      modifies this`needsPaint, this`needsCompositing, this`dirtyPaint, this`dirtyCompositing
      ensures CachesOk() && RootTracked()
    {
      if parent.Some? {
        MarkNeedsLayout(parent.value);
      } else {
        UnseenEdit(id);
      }
    }

    lemma UnseenEdit(id: Id)
      requires Structure() && id !in tree && CachesOkApartFrom(id)
      ensures CachesOk()
    {
      forall a | IsBoundary(tree, a) ensures !InRegion(tree, a, id) && !Contains(tree, a, id) {
        if InRegion(tree, a, id) { RegionUp(tree, a, id); }
        if Contains(tree, a, id) { ContainsKnown(tree, a, id); }
      }
    }

    method Forget(id: Id)
      requires Valid() && id !in tree
      modifies this`needsPaint, this`needsCompositing, this`chunks, this`retained, this`dirtyPaint,
               this`dirtyCompositing
      ensures Valid()
    {
      needsPaint, needsCompositing := needsPaint - {id}, needsCompositing - {id};
      dirtyPaint, dirtyCompositing := dirtyPaint - {id}, dirtyCompositing - {id};
      chunks, retained := chunks - {id}, retained - {id};
    }
  }
}
