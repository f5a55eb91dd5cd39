/**
 The tree of a session is what its edits made of it (src/rendering.cpp, RenderObject): every object has the drawing,
 the place and the children it was given last, and children obey the protocol and the count of their parent.
 */
module TreeHistory {
  import opened Common
  import opened Layers
  import opened RenderTree
  import opened TreeEdits
  import opened PaintSession

  /** The operation is an edit that the framework accepts. */
  predicate Accepted(s: Scene, op: Op)
    requires WellFormed(s.tree)
  {
    op.Change? && Enabled(s, op.edit)
  }

  /** What an object draws by itself. */
  datatype Drawing = Drawing(content: seq<Command>, clip: Option<Rect>, range: Option<(nat, nat)>)

  /** What an object is for good. */
  datatype Make = Make(boundary: bool, role: Role)

  /** The value that the edit gives to object `id`, if it gives it one. */
  function NewDrawing(s: Scene, op: Op, id: Id): Option<Drawing>
    requires WellFormed(s.tree)
  {
    if !Accepted(s, op) then None
    else
      match op.edit
      case Create(_, content, clip, _) => if id == s.nextId then Some(Drawing(content, clip, None)) else None
      case Repaint(x, content, clip, range) => if id == x then Some(Drawing(content, clip, range)) else None
      case _ => None
  }

  function NewOffset(s: Scene, op: Op, id: Id): Option<Offset>
    requires WellFormed(s.tree)
  {
    if !Accepted(s, op) then None
    else
      match op.edit
      case Create(_, _, _, _) => if id == s.nextId then Some(ORIGIN) else None
      case Move(x, offset) => if id == x then Some(offset) else None
      case _ => None
  }

  function NewMake(s: Scene, op: Op, id: Id): Option<Make>
    requires WellFormed(s.tree)
  {
    if !Accepted(s, op) then None
    else
      match op.edit
      case Create(boundary, _, _, role) => if id == s.nextId then Some(Make(boundary, role)) else None
      case _ => None
  }

  /** A new child list, or what is left of the one before when a child is destroyed. */
  function NewChildren(s: Scene, op: Op, id: Id, before: seq<Id>): seq<Id>
    requires WellFormed(s.tree)
  {
    if !Accepted(s, op) then before
    else
      match op.edit
      case Create(_, _, _, _) => if id == s.nextId then [] else before
      case SetChildren(x, next) => if id == x then next else before
      case Destroy(x) => Erase(before, x)
      case _ => before
  }

  predicate StillThere(s: Scene, op: Op, id: Id, before: bool)
    requires WellFormed(s.tree)
  {
    if !Accepted(s, op) then before
    else
      match op.edit
      case Create(_, _, _, _) => before || id == s.nextId
      case Destroy(x) => before && id != x
      case _ => before
  }

  ghost function LastDrawing(content: seq<Command>, ops: seq<Op>, id: Id): Drawing
    requires DrawsOnly(content)
  {
    if ops == [] then Drawing(content, None, None)
    else
      var now := NewDrawing(Replay(content, ops[..|ops| - 1]), ops[|ops| - 1], id);
      if now.Some? then now.value else LastDrawing(content, ops[..|ops| - 1], id)
  }

  ghost function LastOffset(content: seq<Command>, ops: seq<Op>, id: Id): Offset
    requires DrawsOnly(content)
  {
    if ops == [] then ORIGIN
    else
      var now := NewOffset(Replay(content, ops[..|ops| - 1]), ops[|ops| - 1], id);
      if now.Some? then now.value else LastOffset(content, ops[..|ops| - 1], id)
  }

  ghost function LastMake(content: seq<Command>, ops: seq<Op>, id: Id): Make
    requires DrawsOnly(content)
  {
    if ops == [] then Make(true, ROOT_ROLE)
    else
      var now := NewMake(Replay(content, ops[..|ops| - 1]), ops[|ops| - 1], id);
      if now.Some? then now.value else LastMake(content, ops[..|ops| - 1], id)
  }

  ghost function LastChildren(content: seq<Command>, ops: seq<Op>, id: Id): seq<Id>
    requires DrawsOnly(content)
  {
    if ops == [] then []
    else
      NewChildren(Replay(content, ops[..|ops| - 1]), ops[|ops| - 1], id,
                  LastChildren(content, ops[..|ops| - 1], id))
  }

  ghost predicate Alive(content: seq<Command>, ops: seq<Op>, id: Id)
    requires DrawsOnly(content)
  {
    if ops == [] then id == ROOT
    else StillThere(Replay(content, ops[..|ops| - 1]), ops[|ops| - 1], id, Alive(content, ops[..|ops| - 1], id))
  }

  // ---------------------------------------------------------------- one edit

  /** `id` is in the next tree, and what the edit does not give it, it has from before. */
  lemma EditGives(s: Scene, op: Op, id: Id)
    requires SceneOk(s) && id in After(s, op).tree
    ensures var n := After(s, op).tree[id];
            && (NewDrawing(s, op, id).Some? ==> Drawing(n.content, n.clip, n.range) == NewDrawing(s, op, id).value)
            && (NewOffset(s, op, id).Some? ==> n.offset == NewOffset(s, op, id).value)
            && (NewMake(s, op, id).Some? ==> Make(n.boundary, n.role) == NewMake(s, op, id).value)
            && (id in s.tree ==>
                  && (NewDrawing(s, op, id).None? ==>
                        Drawing(n.content, n.clip, n.range)
                        == Drawing(s.tree[id].content, s.tree[id].clip, s.tree[id].range))
                  && (NewOffset(s, op, id).None? ==> n.offset == s.tree[id].offset)
                  && (NewMake(s, op, id).None? ==>
                        Make(n.boundary, n.role) == Make(s.tree[id].boundary, s.tree[id].role)))
            && (id !in s.tree ==> NewDrawing(s, op, id).Some? && NewOffset(s, op, id).Some? && NewMake(s, op, id).Some?)
  {
  }

  lemma EditChildren(s: Scene, op: Op, id: Id)
    requires SceneOk(s) && id in After(s, op).tree
    ensures After(s, op).tree[id].children
            == NewChildren(s, op, id, if id in s.tree then s.tree[id].children else [])
  {
  }

  lemma EditKeepsAlive(s: Scene, op: Op, id: Id)
    requires SceneOk(s)
    ensures id in After(s, op).tree <==> StillThere(s, op, id, id in s.tree)
  {
  }

  // ---------------------------------------------------------------- whole sessions

  /** The objects that were created and not destroyed, the root among them. */
  lemma {:induction false} AliveExactly(content: seq<Command>, ops: seq<Op>, id: Id)
    requires DrawsOnly(content)
    ensures id in Replay(content, ops).tree <==> Alive(content, ops, id)
  {
    if ops != [] {
      AliveExactly(content, ops[..|ops| - 1], id);
      EditKeepsAlive(Replay(content, ops[..|ops| - 1]), ops[|ops| - 1], id);
    }
  }

  /** Each has the drawing and the offset that were set last, and is of the kind it was created as. */
  lemma {:induction false} AttributesAreLast(content: seq<Command>, ops: seq<Op>, id: Id)
    requires DrawsOnly(content) && id in Replay(content, ops).tree
    ensures var n := Replay(content, ops).tree[id];
            && Drawing(n.content, n.clip, n.range) == LastDrawing(content, ops, id)
            && n.offset == LastOffset(content, ops, id)
            && Make(n.boundary, n.role) == LastMake(content, ops, id)
  {
    if ops != [] {
      var front, op := ops[..|ops| - 1], ops[|ops| - 1];
      var s := Replay(content, front);
      EditGives(s, op, id);
      if id in s.tree { AttributesAreLast(content, front, id); }
    }
  }

  /** Each has the children it was given last, without those destroyed since. */
  lemma {:induction false} ChildrenAreLast(content: seq<Command>, ops: seq<Op>, id: Id)
    requires DrawsOnly(content) && id in Replay(content, ops).tree
    ensures Replay(content, ops).tree[id].children == LastChildren(content, ops, id)
  {
    if ops != [] {
      var front, op := ops[..|ops| - 1], ops[|ops| - 1];
      var s := Replay(content, front);
      EditChildren(s, op, id);
      if id in s.tree { ChildrenAreLast(content, front, id); }
    }
  }

  /** Destroying a child closes the gap. */
  lemma {:induction false} EraseOne(a: seq<Id>, x: Id, b: seq<Id>)
    requires x !in a && x !in b
    ensures Erase(a + [x] + b, x) == a + b
  {
    if a == [] {
      assert [] + [x] + b == [x] + b && ([x] + b)[1..] == b;
    } else {
      assert (a + [x] + b)[1..] == a[1..] + [x] + b;
      EraseOne(a[1..], x, b);
    }
  }

  // ---------------------------------------------------------------- what every tree obeys

  /** No child twice, none too many, and each of the kind its parent takes. */
  ghost predicate Obeys(t: Tree) {
    forall p | p in t :: Distinct(t[p].children) && CountOk(t[p].role, |t[p].children|)
                         && forall c | c in t[p].children :: c in t && ProtocolOk(t[p].role, t[c].role)
  }

  lemma {:induction false} EraseDistinct(s: seq<Id>, x: Id)
    requires Distinct(s)
    ensures Distinct(Erase(s, x)) && |Erase(s, x)| <= |s|
  {
    if s != [] {
      var rest := Erase(s[1..], x);
      EraseDistinct(s[1..], x);
      HeadDistinct(s, rest);
      assert Erase(s, x) == (if s[0] == x then [] else [s[0]]) + rest;
      assert [] + rest == rest;
    }
  }

  lemma HeadDistinct(s: seq<Id>, rest: seq<Id>)
    requires s != [] && Distinct(s) && Distinct(rest) && forall y | y in rest :: y in s[1..]
    ensures Distinct([s[0]] + rest)
  {
    var all := [s[0]] + rest;
    forall i, j | 0 <= i < j < |all| ensures all[i] != all[j] {
      if i == 0 {
        assert rest[j - 1] in s[1..];
        var k :| 0 <= k < |s[1..]| && s[1..][k] == rest[j - 1];
        assert s[0] != s[k + 1];
      } else {
        assert rest[i - 1] != rest[j - 1];
      }
    }
  }

  lemma AdoptionObeys(t: Tree, top: nat, p: Id, next: seq<Id>)
    requires WellFormed(t) && Obeys(t) && Adoptable(t, p, next)
    ensures Obeys(WithChildren(t, top, p, next))
  {
    forall c | c in next ensures c in t && ProtocolOk(t[p].role, t[c].role) {
      var i :| 0 <= i < |next| && next[i] == c;
      assert AdoptableChild(t, p, next[i]);
    }
  }

  lemma DestructionObeys(t: Tree, x: Id)
    requires Obeys(t)
    ensures Obeys(Without(t, x))
  {
    forall p | p in Without(t, x) ensures Distinct(Without(t, x)[p].children)
                                        && |Without(t, x)[p].children| <= |t[p].children| {
      EraseDistinct(t[p].children, x);
    }
  }

  lemma EditObeys(s: Scene, op: Op)
    requires SceneOk(s) && Obeys(s.tree)
    ensures Obeys(After(s, op).tree)
  {
    if Accepted(s, op) {
      match op.edit
      case SetChildren(id, next) => AdoptionObeys(s.tree, s.top, id, next);
      case Destroy(id) => DestructionObeys(s.tree, id);
      case _ =>
    }
  }

  lemma {:induction false} TreeObeys(content: seq<Command>, ops: seq<Op>)
    requires DrawsOnly(content)
    ensures Obeys(Replay(content, ops).tree)
  {
    if ops != [] {
      TreeObeys(content, ops[..|ops| - 1]);
      EditObeys(Replay(content, ops[..|ops| - 1]), ops[|ops| - 1]);
    }
  }

  // ---------------------------------------------------------------- which child lists are refused

  /** `t'` is the same tree but for the children of `p`, and whatever parents and levels that takes. */
  predicate Arranges(t: Tree, t': Tree, p: Id, next: seq<Id>) {
    && t'.Keys == t.Keys
    && forall y | y in t ::
         t'[y] == t[y].(parent := t'[y].parent, level := t'[y].level,
                        children := if y == p then next else t[y].children)
  }

  ghost predicate Legal(t: Tree) {
    WellFormed(t) && Obeys(t)
  }

  lemma {:induction false} ContainsLevel(t: Tree, a: Id, x: Id)
    requires WellFormed(t) && a in t && Contains(t, a, x)
    ensures x in t && t[x].level <= t[a].level
    decreases t[a].level
  {
    if a != x {
      var c :| c in t[a].children && Contains(t, c, x);
      ContainsLevel(t, c, x);
    }
  }

  /** The way down to `p` does not use the children of `p`. */
  lemma {:induction false} StillContains(t: Tree, t': Tree, p: Id, next: seq<Id>, a: Id)
    requires WellFormed(t) && WellFormed(t') && Arranges(t, t', p, next) && a in t && Contains(t, a, p)
    ensures Contains(t', a, p)
    decreases t[a].level
  {
    if a != p {
      var c :| c in t[a].children && Contains(t, c, p);
      StillContains(t, t', p, next, c);
      assert c in t'[a].children;
    }
  }

  lemma ParentStays(t: Tree, t': Tree, p: Id, next: seq<Id>, q: Id, c: Id)
    requires WellFormed(t') && Arranges(t, t', p, next) && q in t && c in t[q].children
    ensures q == p || t'[c].parent == Some(q)
  {
    if q != p { assert c in t'[q].children; }
  }

  /** An object above `p` is no child of it in any arrangement. */
  lemma AboveIsNoChild(t: Tree, t': Tree, p: Id, next: seq<Id>, c: Id)
    requires WellFormed(t) && WellFormed(t') && Arranges(t, t', p, next) && p in t && c in t && Contains(t, c, p)
    ensures c !in t'[p].children
  {
    StillContains(t, t', p, next, c);
    ContainsLevel(t', c, p);
  }

  lemma LegalChild(t: Tree, t': Tree, p: Id, next: seq<Id>, c: Id)
    requires WellFormed(t) && Legal(t') && Arranges(t, t', p, next) && p in t && c in next
    ensures AdoptableChild(t, p, c)
  {
    assert c in t'[p].children;
    assert ParentLinked(t, c);
    if t[c].parent.Some? { ParentStays(t, t', p, next, t[c].parent.value, c); }
    if Contains(t, c, p) { AboveIsNoChild(t, t', p, next, c); }
  }

  /** A child list is adopted exactly when some legal tree has it: when it is refused, no tree could. */
  lemma AdoptableExactly(t: Tree, top: nat, p: Id, next: seq<Id>)
    requires Legal(t) && p in t && forall n | n in t :: t[n].level <= top
    ensures Adoptable(t, p, next) <==> exists t': Tree :: Arranges(t, t', p, next) && Legal(t')
  {
    if Adoptable(t, p, next) {
      WithChildrenOk(t, top, p, next);
      AdoptionObeys(t, top, p, next);
      assert Arranges(t, WithChildren(t, top, p, next), p, next);
    }
    forall t': Tree | Arranges(t, t', p, next) && Legal(t') ensures Adoptable(t, p, next) {
      assert t'[p].children == next;
      forall i | 0 <= i < |next| ensures AdoptableChild(t, p, next[i]) { LegalChild(t, t', p, next, next[i]); }
    }
  }

  /** In particular the children an object has are never refused. */
  lemma OwnChildrenAdoptable(t: Tree, top: nat, p: Id)
    requires Legal(t) && p in t && forall n | n in t :: t[n].level <= top
    ensures Adoptable(t, p, t[p].children)
  {
    assert Arranges(t, t, p, t[p].children);
    AdoptableExactly(t, top, p, t[p].children);
  }
}
