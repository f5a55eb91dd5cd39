/**
 The whole-run statement for retained painting: a session of arbitrary edits and frames shows
 exactly what repainting the whole tree from scratch at each frame would show.
 */
module PaintSession {
  import opened Common
  import opened Layers
  import opened RenderTree
  import opened PaintRanges
  import opened Placement
  import opened TreeEdits
  import opened RetainedPainting

  datatype Op = Change(edit: Edit) | Frame

  /** The scene after `ops`; frames do not change it. */
  ghost function Replay(content: seq<Command>, ops: seq<Op>): (s: Scene)
    requires DrawsOnly(content)
    ensures SceneOk(s)
  {
    if ops == [] then InitialScene(content)
    else After(Replay(content, ops[..|ops| - 1]), ops[|ops| - 1])
  }

  ghost function After(s: Scene, op: Op): (s': Scene)
    requires SceneOk(s)
    ensures SceneOk(s')
  {
    match op
    case Frame => s
    case Change(edit) => ApplyOk(s, edit); Apply(s, edit)
  }

  /**
   What a frame of the scene must show: a full paint of the root, which is what the painted objects
   recorded, each command moved by the offsets on its way.  A frame is missing exactly when that paint
   meets an invalid paint range, for which the source throws.
   */
  ghost predicate ShowsAll(s: Scene, frame: Option<seq<Command>>)
    requires SceneOk(s)
  {
    && (frame.Some? ==> frame.value == Paint(s.tree, ROOT, ORIGIN) && Balanced(frame.value))
    && (frame.Some? ==> AllPlaced(frame.value, Composition(s.tree, ROOT), ORIGIN))
    && (frame.Some? <==> Paintable(s.tree, ROOT))
  }

  /** Every frame among the first `n` operations showed what it must. */
  ghost predicate AllShown(content: seq<Command>, ops: seq<Op>, frames: seq<Option<seq<Command>>>, n: nat)
    requires DrawsOnly(content) && n <= |ops| && n <= |frames|
  {
    forall i {:trigger frames[i]} | 0 <= i < n && ops[i].Frame? :: ShowsAll(Replay(content, ops[..i]), frames[i])
  }

  lemma ShownNext(content: seq<Command>, ops: seq<Op>, frames: seq<Option<seq<Command>>>, shown: Option<seq<Command>>)
    requires DrawsOnly(content) && |frames| < |ops| && AllShown(content, ops, frames, |frames|)
    requires ops[|frames|].Frame? ==> ShowsAll(Replay(content, ops[..|frames|]), shown)
    ensures AllShown(content, ops, frames + [shown], |frames| + 1)
  {
  }

  /** Run a session against the retained painter; entry i is what op i drew, if it was a frame. */
  method Run(content: seq<Command>, ops: seq<Op>) returns (frames: seq<Option<seq<Command>>>)
    requires DrawsOnly(content)
    ensures |frames| == |ops|
    ensures AllShown(content, ops, frames, |ops|)
  {
    var owner := new RenderOwner(content);
    frames := [];
    for n := 0 to |ops|
      invariant fresh(owner) && owner.Valid() && owner.CurrentScene() == Replay(content, ops[..n])
      invariant |frames| == n && AllShown(content, ops, frames, n)
    {
      var shown := Step(owner, ops[n]);
      ReplayNext(content, ops, n);
      ShownNext(content, ops, frames, shown);
      frames := frames + [shown];
    }
  }

  lemma ReplayNext(content: seq<Command>, ops: seq<Op>, n: nat)
    requires DrawsOnly(content) && n < |ops|
    ensures Replay(content, ops[..n + 1]) == After(Replay(content, ops[..n]), ops[n])
  {
    assert ops[..n + 1][..n] == ops[..n];
  }

  method Step(owner: RenderOwner, op: Op) returns (shown: Option<seq<Command>>)
    requires owner.Valid()
    modifies owner
    ensures owner.Valid() && owner.CurrentScene() == After(old(owner.CurrentScene()), op)
    ensures op.Frame? ==> ShowsAll(old(owner.CurrentScene()), shown)
  {
    shown := None;
    match op
    case Frame =>
      var layer := owner.CompositeFrame();
      if layer.Some? {
        var commands := AppendLayer(layer.value, [], ORIGIN);
        EmptyPrefix(Flatten(layer.value, ORIGIN));
        PaintComposed(owner.tree, ROOT, ORIGIN);
        shown := Some(commands);
      }
    case Change(edit) =>
      Perform(owner, edit);
  }

  method Perform(owner: RenderOwner, edit: Edit)
    requires owner.Valid()
    modifies owner
    ensures owner.Valid() && owner.CurrentScene() == Apply(old(owner.CurrentScene()), edit)
  {
    match edit
    case Create(boundary, content, clip, role) =>
      if DrawsOnly(content) {
        var id := owner.Create(boundary, content, clip, role);
      }
    case Repaint(id, content, clip, range) =>
      if id in owner.tree && DrawsOnly(content) { owner.Repaint(id, content, clip, range); }
    case Move(id, offset) =>
      if id in owner.tree && owner.tree[id].parent.Some? { owner.Move(id, offset); }
    case SetChildren(id, next) =>
      if id in owner.tree {
        var accepted := owner.SetChildren(id, next);
      }
    case Destroy(id) =>
      if id in owner.tree && id != ROOT { owner.Destroy(id); }
  }
}
