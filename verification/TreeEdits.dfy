/**
 Edits of the render tree that painting can observe: new attributes, new offsets, new child
 lists, creation and destruction of objects (src/rendering.cpp, RenderObject).  Each edit
 leaves the tree well formed and is local to one object.
 */
module TreeEdits {
  import opened Common
  import opened Layers
  import opened RenderTree
  import opened PaintRanges

  /** The root RenderView registers first, so it has id 1. */
  const ROOT: Id := 1

  /** The render tree with its id counter; `top` bounds the levels in use. */
  datatype Scene = Scene(tree: Tree, top: nat, nextId: Id)

  ghost predicate SceneOk(s: Scene) {
    && WellFormed(s.tree)
    && (forall n | n in s.tree :: s.tree[n].level <= s.top && n < s.nextId)
    && ROOT in s.tree && s.tree[ROOT].boundary
  }

  /** The root view is a box with any number of boxes. */
  const ROOT_ROLE := Role(Box, Some(Box), false)

  /** A new owner: the root view alone. */
  function InitialScene(content: seq<Command>): Scene {
    Scene(map[ROOT := Node(None, [], true, ORIGIN, content, None, None, ROOT_ROLE, 0)], 0, ROOT + 1)
  }

  datatype Edit =
    | Create(boundary: bool, content: seq<Command>, clip: Option<Rect>, role: Role)
    | Repaint(id: Id, content: seq<Command>, clip: Option<Rect>, range: Option<(nat, nat)>)
    | Move(id: Id, offset: Offset)
    | SetChildren(id: Id, next: seq<Id>)
    | Destroy(id: Id)

  predicate Distinct(s: seq<Id>) {
    forall i, j | 0 <= i < j < |s| :: s[i] != s[j]
  }

  /**
   The checks of set_children: not too many, and each one known, unowned or already ours, of the right
   protocol, no ancestor and no repetition.  An id outside the tree stands for a null child and for a
   child of another owner.
   */
  predicate Adoptable(t: Tree, p: Id, next: seq<Id>)
    requires WellFormed(t)
  {
    && p in t && CountOk(t[p].role, |next|) && Distinct(next)
    && forall i | 0 <= i < |next| :: AdoptableChild(t, p, next[i])
  }

  predicate AdoptableChild(t: Tree, p: Id, c: Id)
    requires WellFormed(t) && p in t
  {
    c in t && (t[c].parent.None? || t[c].parent == Some(p)) && ProtocolOk(t[p].role, t[c].role) && !Contains(t, c, p)
  }

  predicate Enabled(s: Scene, e: Edit)
    requires WellFormed(s.tree)
  {
    match e
    case Create(_, content, _, _) => DrawsOnly(content)
    case Repaint(id, content, _, _) => id in s.tree && DrawsOnly(content)
    case Move(id, _) => id in s.tree && s.tree[id].parent.Some?
    case SetChildren(id, next) => Adoptable(s.tree, id, next)
    case Destroy(id) => id in s.tree && id != ROOT
  }

  function WithChildren(t: Tree, top: nat, p: Id, next: seq<Id>): Tree
    requires WellFormed(t) && p in t
  {
    map y | y in t ::
      t[y].(parent := if y in next then Some(p) else if t[y].parent == Some(p) then None else t[y].parent,
            children := if y == p then next else t[y].children,
            level := if Contains(t, y, p) then t[y].level + top + 1 else t[y].level)
  }

  function Without(t: Tree, x: Id): Tree {
    map y | y in t && y != x ::
      t[y].(parent := if t[y].parent == Some(x) then None else t[y].parent,
            children := Erase(t[y].children, x))
  }

  function Erase(s: seq<Id>, x: Id): (r: seq<Id>)
    ensures forall y :: y in r <==> y in s && y != x
    ensures x !in s ==> r == s
  {
    if s == [] then []
    else (if s[0] == x then [] else [s[0]]) + Erase(s[1..], x)
  }

  /** The tree after an edit; an edit the framework rejects changes nothing. */
  function Apply(s: Scene, e: Edit): Scene
    requires WellFormed(s.tree)
  {
    if !Enabled(s, e) then s
    else
      match e
      case Create(boundary, content, clip, role) =>
        Scene(s.tree[s.nextId := Node(None, [], boundary, ORIGIN, content, clip, None, role, 0)], s.top, s.nextId + 1)
      case Repaint(id, content, clip, range) =>
        s.(tree := s.tree[id := s.tree[id].(content := content, clip := clip, range := range)])
      case Move(id, offset) =>
        s.(tree := s.tree[id := s.tree[id].(offset := offset)])
      case SetChildren(id, next) =>
        if s.tree[id].children == next then s
        else Scene(WithChildren(s.tree, s.top, id, next), 2 * s.top + 1, s.nextId)
      case Destroy(id) =>
        s.(tree := Without(s.tree, id))
  }

  /** The object whose drawing an edit may change: its own, or its parent's. */
  function Touched(s: Scene, e: Edit): Id {
    match e
    case Create(_, _, _, _) => s.nextId
    case Repaint(id, _, _, _) => id
    case Move(id, _) => if id in s.tree && s.tree[id].parent.Some? then s.tree[id].parent.value else id
    case SetChildren(id, _) => id
    case Destroy(id) => if id in s.tree && s.tree[id].parent.Some? then s.tree[id].parent.value else id
  }

  lemma SetChildrenOk(s: Scene, id: Id, next: seq<Id>)
    requires SceneOk(s) && Enabled(s, SetChildren(id, next))
    ensures SceneOk(Apply(s, SetChildren(id, next))) && EditedAt(s.tree, Apply(s, SetChildren(id, next)).tree, id)
  {
    WithChildrenOk(s.tree, s.top, id, next);
    WithChildrenLocal(s.tree, s.top, id, next);
  }

  lemma DestroyOk(s: Scene, id: Id)
    requires SceneOk(s) && Enabled(s, Destroy(id))
    ensures SceneOk(Apply(s, Destroy(id))) && EditedAt(s.tree, Apply(s, Destroy(id)).tree, Touched(s, Destroy(id)))
  {
    WithoutOk(s.tree, id);
    WithoutLocal(s.tree, id);
  }

  /** Every edit keeps the scene well formed and reaches no object but the touched one. */
  lemma ApplyOk(s: Scene, e: Edit)
    requires SceneOk(s)
    ensures SceneOk(Apply(s, e))
    ensures EditedAt(s.tree, Apply(s, e).tree, Touched(s, e))
  {
    if Enabled(s, e) {
      match e {
        case Create(boundary, content, clip, role) =>
          CreateOk(s.tree, s.nextId, Node(None, [], boundary, ORIGIN, content, clip, None, role, 0));
        case Repaint(id, content, clip, range) =>
          AttributesOk(s.tree, id, s.tree[id].(content := content, clip := clip, range := range));
        case Move(id, offset) =>
          AttributesOk(s.tree, id, s.tree[id].(offset := offset));
        case SetChildren(id, next) => SetChildrenOk(s, id, next);
        case Destroy(id) => DestroyOk(s, id);
      }
    }
  }

  lemma CreateOk(t: Tree, q: Id, n: Node)
    requires WellFormed(t) && q !in t && n.parent.None? && n.children == [] && DrawsOnly(n.content)
    ensures WellFormed(t[q := n]) && EditedAt(t, t[q := n], q)
  {
    var t' := t[q := n];
    forall c | c in t' ensures ParentLinked(t', c) { if c in t { assert ParentLinked(t, c); } }
    forall y, c | y in t' && c in t'[y].children
      ensures c in t' && t'[c].parent == Some(y) && t'[c].level < t'[y].level
    {
      assert y in t && c in t[y].children;
    }
  }

  lemma AttributesOk(t: Tree, x: Id, n: Node)
    requires WellFormed(t) && x in t && DrawsOnly(n.content) && n.boundary == t[x].boundary
    requires n.parent == t[x].parent && n.children == t[x].children && n.level == t[x].level
    ensures WellFormed(t[x := n])
    ensures n.offset == t[x].offset ==> EditedAt(t, t[x := n], x)
    ensures n == t[x].(offset := n.offset) && n.parent.Some? ==> EditedAt(t, t[x := n], n.parent.value)
  {
    var t' := t[x := n];
    forall c | c in t' ensures ParentLinked(t', c) { assert ParentLinked(t, c); }
    assert ParentLinked(t, x);
  }

  ghost predicate KidLinked(t: Tree, y: Id, c: Id)
    requires y in t
  {
    c in t && t[c].parent == Some(y) && t[c].level < t[y].level
  }

  lemma WithChildrenKid(t: Tree, top: nat, p: Id, next: seq<Id>, y: Id, c: Id)
    requires WellFormed(t) && Adoptable(t, p, next) && forall n | n in t :: t[n].level <= top
    requires y in t && c in WithChildren(t, top, p, next)[y].children
    ensures KidLinked(WithChildren(t, top, p, next), y, c)
  {
    if y == p {
      var i :| 0 <= i < |next| && next[i] == c;
      assert AdoptableChild(t, p, next[i]);
      assert Contains(t, p, p);
    } else {
      assert c !in next by { NotAdopted(t, p, next, c); }
      if Contains(t, c, p) { assert Contains(t, y, p); }
    }
  }

  lemma NotAdopted(t: Tree, p: Id, next: seq<Id>, c: Id)
    requires WellFormed(t) && Adoptable(t, p, next) && c in t && t[c].parent.Some? && t[c].parent.value != p
    ensures c !in next
  {
    forall i | 0 <= i < |next| ensures next[i] != c {
      assert AdoptableChild(t, p, next[i]);
    }
  }

  lemma WithChildrenParent(t: Tree, top: nat, p: Id, next: seq<Id>, c: Id)
    requires WellFormed(t) && p in t && c in t
    ensures ParentLinked(WithChildren(t, top, p, next), c)
  {
    assert ParentLinked(t, c);
  }

  lemma WithChildrenOk(t: Tree, top: nat, p: Id, next: seq<Id>)
    requires WellFormed(t) && Adoptable(t, p, next) && forall n | n in t :: t[n].level <= top
    ensures WellFormed(WithChildren(t, top, p, next))
  {
    var t' := WithChildren(t, top, p, next);
    forall y, c | y in t' && c in t'[y].children ensures KidLinked(t', y, c) {
      WithChildrenKid(t, top, p, next, y, c);
    }
    forall c | c in t' ensures ParentLinked(t', c) {
      WithChildrenParent(t, top, p, next, c);
    }
  }

  lemma WithChildrenLocal(t: Tree, top: nat, p: Id, next: seq<Id>)
    requires WellFormed(t) && p in t
    ensures EditedAt(t, WithChildren(t, top, p, next), p)
  {
  }

  lemma WithoutParent(t: Tree, x: Id, c: Id)
    requires WellFormed(t) && c in t && c != x
    ensures ParentLinked(Without(t, x), c)
  {
    assert ParentLinked(t, c);
  }

  lemma WithoutKid(t: Tree, x: Id, y: Id, c: Id)
    requires WellFormed(t) && y in t && y != x && c in Erase(t[y].children, x)
    ensures KidLinked(Without(t, x), y, c)
  {
    assert c in t[y].children;
  }

  lemma WithoutOk(t: Tree, x: Id)
    requires WellFormed(t) && x in t
    ensures WellFormed(Without(t, x))
  {
    var t' := Without(t, x);
    forall c | c in t' ensures ParentLinked(t', c) { WithoutParent(t, x, c); }
    forall y, c | y in t' && c in t'[y].children ensures KidLinked(t', y, c) { WithoutKid(t, x, y, c); }
  }

  lemma WithoutLocal(t: Tree, x: Id)
    requires WellFormed(t) && x in t
    ensures t[x].parent.Some? ==> EditedAt(t, Without(t, x), t[x].parent.value)
    ensures t[x].parent.None? ==> EditedAt(t, Without(t, x), x)
  {
    var t' := Without(t, x);
    forall y | y in t' && t[x].parent != Some(y) ensures DrawsAlike(t, t', y) {
      assert x !in t[y].children;
    }
  }

  /** An edit at `x` cannot be seen from a boundary that does not record, or does not contain, `x`. */
  lemma EditUnseen(t: Tree, t': Tree, x: Id, a: Id)
    requires WellFormed(t) && WellFormed(t') && EditedAt(t, t', x) && a in t' && a != x
    ensures a in t && t[a].boundary == t'[a].boundary
    ensures !InRegion(t', a, x) ==>
              Record(t, a, ORIGIN) == Record(t', a, ORIGIN) && (Recordable(t, a) <==> Recordable(t', a))
    ensures !Contains(t', a, x) ==>
              Paint(t, a, ORIGIN) == Paint(t', a, ORIGIN) && (Paintable(t, a) <==> Paintable(t', a))
  {
    assert DrawsAlike(t, t', a);
    if !InRegion(t', a, x) {
      RecordLocal(t, t', x, a, ORIGIN);
      RecordableLocal(t, t', x, a);
    }
    if !Contains(t', a, x) {
      PaintLocal(t, t', x, a, ORIGIN);
      PaintableLocal(t, t', x, a);
    }
  }

  lemma {:induction false} ContainsKnown(t: Tree, a: Id, x: Id)
    requires WellFormed(t) && a in t && Contains(t, a, x)
    ensures x in t
    decreases t[a].level
  {
    if a != x {
      var c :| c in t[a].children && Contains(t, c, x);
      ContainsKnown(t, c, x);
    }
  }
}
