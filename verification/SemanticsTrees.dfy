/**
 What the adapter accepts (src/platform/win32_accessibility.cpp, rebuild_hierarchy): the models that pass its checks
 are exactly the models of acceptable trees.  From such a model the tree is rebuilt, child by child.
 */
module SemanticsTrees {
  import opened Common
  import opened Semantics
  import opened SemanticsDiff
  import opened SemanticsOrder

  /** Every entry is filed under its own id, and none under zero. */
  predicate Keyed(m: Model) {
    forall id | id in m :: m[id].id == id && id != 0
  }

  /** Siblings have different indices, without gaps. */
  predicate Siblings(m: Model) {
    && Keyed(m)
    && (forall x, y | x in m && y in m && m[x].parent == m[y].parent && m[x].index == m[y].index :: x == y)
    && (forall x {:trigger PreviousIn(m, x)} | x in m && m[x].index > 0 :: PreviousIn(m, x))
  }

  predicate Rooted(m: Model) {
    forall id | id in m :: RootWithin(m, id, |m|)
  }

  // ---------------------------------------------------------------- climbing

  /** Climbing `k` parents from `x` leads to a child of `parent`. */
  predicate Under(m: Model, x: nat, parent: Option<nat>, k: nat)
    decreases k
  {
    x in m && if k == 0 then m[x].parent == parent
              else m[x].parent.Some? && Under(m, m[x].parent.value, parent, k - 1)
  }

  /** Where climbing `k` parents leads. */
  function Above(m: Model, x: nat, k: nat): nat
    decreases k
  {
    if k == 0 || x !in m || m[x].parent.None? then x else Above(m, m[x].parent.value, k - 1)
  }

  lemma {:induction false} AboveIs(m: Model, x: nat, parent: Option<nat>, k: nat)
    requires Under(m, x, parent, k)
    ensures Above(m, x, k) in m && m[Above(m, x, k)].parent == parent
    decreases k
  {
    if k > 0 { AboveIs(m, m[x].parent.value, parent, k - 1); }
  }

  /** One step less leads to a child of the object that all of it leads to. */
  lemma {:induction false} UnderTop(m: Model, x: nat, parent: Option<nat>, k: nat)
    requires Under(m, x, parent, k) && k > 0
    ensures Under(m, x, Some(Above(m, x, k)), k - 1)
    decreases k
  {
    if k > 1 { UnderTop(m, m[x].parent.value, parent, k - 1); }
  }

  /** And the other way round. */
  lemma {:induction false} UnderMore(m: Model, x: nat, z: nat, k: nat)
    requires z in m && Under(m, x, Some(z), k)
    ensures Under(m, x, m[z].parent, k + 1) && Above(m, x, k + 1) == z
    decreases k
  {
    if k > 0 {
      UnderMore(m, m[x].parent.value, z, k - 1);
    } else {
      assert Under(m, z, m[z].parent, 0) && Above(m, z, 0) == z;
    }
  }

  lemma {:induction false} RootUnder(m: Model, x: nat, d: nat) returns (k: nat)
    requires RootWithin(m, x, d)
    ensures k <= d && Under(m, x, None, k)
    decreases d
  {
    if m[x].parent.None? {
      k := 0;
    } else {
      k := RootUnder(m, m[x].parent.value, d - 1);
      k := k + 1;
    }
  }

  lemma {:induction false} OneDepth(m: Model, x: nat, j: nat, k: nat)
    requires Under(m, x, None, j) && Under(m, x, None, k)
    ensures j == k
    decreases j
  {
    if j > 0 && k > 0 { OneDepth(m, m[x].parent.value, j - 1, k - 1); }
  }

  lemma {:induction false} DepthAdds(m: Model, x: nat, p: nat, k: nat, a: nat)
    requires Under(m, x, Some(p), k) && Under(m, p, None, a)
    ensures Under(m, x, None, a + k + 1)
    decreases k
  {
    if k > 0 { DepthAdds(m, m[x].parent.value, p, k - 1, a); }
  }

  /** The depth of the object whose children are meant; the root has none. */
  predicate Anchored(m: Model, parent: Option<nat>, a: nat) {
    parent.Some? ==> Under(m, parent.value, None, a)
  }

  lemma OneDistanceBelow(m: Model, x: nat, p: nat, a: nat, j: nat, k: nat)
    requires Under(m, p, None, a) && Under(m, x, Some(p), j) && Under(m, x, Some(p), k)
    ensures j == k
  {
    DepthAdds(m, x, p, j, a);
    DepthAdds(m, x, p, k, a);
    OneDepth(m, x, a + j + 1, a + k + 1);
  }

  /** An object is below another one, or below the root, at one distance only. */
  lemma OneDistance(m: Model, x: nat, parent: Option<nat>, a: nat, j: nat, k: nat)
    requires Anchored(m, parent, a) && Under(m, x, parent, j) && Under(m, x, parent, k)
    ensures j == k
  {
    match parent
    case None => OneDepth(m, x, j, k);
    case Some(p) => OneDistanceBelow(m, x, p, a, j, k);
  }

  /** Nothing is below itself. */
  lemma NotBelowItself(m: Model, z: nat, a: nat, k: nat)
    requires Under(m, z, None, a)
    ensures !Under(m, z, Some(z), k)
  {
    if Under(m, z, Some(z), k) {
      DepthAdds(m, z, z, k, a);
      OneDepth(m, z, a, a + k + 1);
    }
  }

  /** A child lies one level deeper. */
  function Deeper(parent: Option<nat>, a: nat): nat {
    if parent.None? then 0 else a + 1
  }

  lemma KidAnchored(m: Model, parent: Option<nat>, a: nat, z: nat)
    requires Anchored(m, parent, a) && z in m && m[z].parent == parent
    ensures Under(m, z, None, Deeper(parent, a)) && Anchored(m, Some(z), Deeper(parent, a))
  {
    assert Under(m, z, parent, 0);
    if parent.Some? { DepthAdds(m, z, parent.value, 0, a); }
  }

  // ---------------------------------------------------------------- rebuilding

  predicate IsKid(m: Model, parent: Option<nat>, i: nat, z: nat) {
    z in m && m[z].parent == parent && m[z].index == i
  }

  function LaterKids(m: Model, parent: Option<nat>, i: nat): set<nat> {
    set z | z in m && m[z].parent == parent && m[z].index >= i
  }

  lemma FewerKids(m: Model, parent: Option<nat>, i: nat, z: nat)
    requires IsKid(m, parent, i, z)
    ensures |LaterKids(m, parent, i + 1)| < |LaterKids(m, parent, i)|
  {
    assert LaterKids(m, parent, i + 1) <= LaterKids(m, parent, i) - {z};
    SubsetSize(LaterKids(m, parent, i + 1), LaterKids(m, parent, i) - {z});
  }

  lemma {:induction false} SubsetSize(a: set<nat>, b: set<nat>)
    requires a <= b
    ensures |a| <= |b|
  {
    if a != {} {
      var x :| x in a;
      SubsetSize(a - {x}, b - {x});
    }
  }

  /** The children of `parent` from index `i` on, and `d` levels of objects in all. */
  ghost function Build(m: Model, parent: Option<nat>, i: nat, d: nat): seq<SemanticsNode>
    decreases d, |LaterKids(m, parent, i)|
  {
    if d > 0 && exists z :: IsKid(m, parent, i, z) then
      var z :| IsKid(m, parent, i, z);
      FewerKids(m, parent, i, z);
      [SemanticsNode(z, m[z].info, Build(m, Some(z), 0, d - 1))] + Build(m, parent, i + 1, d)
    else []
  }

  ghost function Entries(m: Model, parent: Option<nat>, i: nat, d: nat): seq<Entry> {
    Flat(Build(m, parent, i, d), parent, i)
  }

  lemma OneKid(m: Model, parent: Option<nat>, i: nat, z: nat, y: nat)
    requires Siblings(m) && IsKid(m, parent, i, z) && IsKid(m, parent, i, y)
    ensures y == z
  {
  }

  lemma BuildUnfold(m: Model, parent: Option<nat>, i: nat, d: nat, z: nat)
    requires d > 0 && IsKid(m, parent, i, z) && forall y | IsKid(m, parent, i, y) :: y == z
    ensures Build(m, parent, i, d)
            == [SemanticsNode(z, m[z].info, Build(m, Some(z), 0, d - 1))] + Build(m, parent, i + 1, d)
  {
  }

  lemma FlatCons(node: SemanticsNode, rest: seq<SemanticsNode>, parent: Option<nat>, i: nat)
    ensures Flat([node] + rest, parent, i) == FlatOne(node, parent, i) + Flat(rest, parent, i + 1)
  {
    assert ([node] + rest)[1..] == rest;
  }

  /** The entries of the rebuilt siblings: the first, what is below it, and the others. */
  lemma EntriesUnfold(m: Model, parent: Option<nat>, i: nat, d: nat, z: nat)
    requires Siblings(m) && d > 0 && IsKid(m, parent, i, z)
    ensures Entries(m, parent, i, d) == [m[z]] + Entries(m, Some(z), 0, d - 1) + Entries(m, parent, i + 1, d)
  {
    forall y | IsKid(m, parent, i, y) ensures y == z { OneKid(m, parent, i, z, y); }
    BuildUnfold(m, parent, i, d, z);
    FlatCons(SemanticsNode(z, m[z].info, Build(m, Some(z), 0, d - 1)), Build(m, parent, i + 1, d), parent, i);
    assert m[z] == Entry(z, parent, i, m[z].info);
  }

  lemma NoEntries(m: Model, parent: Option<nat>, i: nat, d: nat)
    requires d == 0 || !exists z :: IsKid(m, parent, i, z)
    ensures Entries(m, parent, i, d) == []
  {
  }

  /** An entry of the model, below `parent` by way of its child number `i` or a later one. */
  predicate Belongs(m: Model, parent: Option<nat>, i: nat, e: Entry, k: nat) {
    && e.id in m && e == m[e.id] && Under(m, e.id, parent, k)
    && Above(m, e.id, k) in m && m[Above(m, e.id, k)].index >= i
  }

  lemma {:induction false} EntriesBelong(m: Model, parent: Option<nat>, i: nat, d: nat, e: Entry) returns (k: nat)
    requires Siblings(m) && e in Entries(m, parent, i, d)
    ensures Belongs(m, parent, i, e, k)
    decreases d, |LaterKids(m, parent, i)|
  {
    if d == 0 || !exists z :: IsKid(m, parent, i, z) {
      NoEntries(m, parent, i, d);
    }
    var z :| IsKid(m, parent, i, z);
    EntriesUnfold(m, parent, i, d, z);
    FewerKids(m, parent, i, z);
    if e in Entries(m, Some(z), 0, d - 1) {
      k := EntriesBelong(m, Some(z), 0, d - 1, e);
      UnderMore(m, e.id, z, k);
      k := k + 1;
    } else if e == m[z] {
      k := 0;
    } else {
      k := EntriesBelong(m, parent, i + 1, d, e);
    }
  }

  /** In front of every child there are children with all smaller indices. */
  lemma {:induction false} KidsBefore(m: Model, parent: Option<nat>, i: nat, t: nat)
    requires Siblings(m) && t in m && m[t].parent == parent && i <= m[t].index
    ensures exists z :: IsKid(m, parent, i, z)
    decreases m[t].index
  {
    if m[t].index == i {
      assert IsKid(m, parent, i, t);
    } else {
      assert PreviousIn(m, t);
      var y :| y in m && m[y].parent == m[t].parent && m[y].index + 1 == m[t].index;
      KidsBefore(m, parent, i, y);
    }
  }

  /** A descendant belongs to the first child or to what is below it, or to a later child. */
  lemma BelongsSplits(m: Model, parent: Option<nat>, i: nat, x: nat, k: nat, z: nat)
    requires x in m && Belongs(m, parent, i, m[x], k) && IsKid(m, parent, i, z)
    requires forall y | IsKid(m, parent, i, y) :: y == z
    ensures || (k == 0 && x == z)
            || (k > 0 && Belongs(m, Some(z), 0, m[x], k - 1))
            || Belongs(m, parent, i + 1, m[x], k)
  {
    var t := Above(m, x, k);
    AboveIs(m, x, parent, k);
    if m[t].index == i {
      assert IsKid(m, parent, i, t);
      if k > 0 {
        UnderTop(m, x, parent, k);
        AboveIs(m, x, Some(z), k - 1);
      }
    }
  }

  lemma FirstKid(m: Model, parent: Option<nat>, i: nat, x: nat, k: nat) returns (z: nat)
    requires Siblings(m) && x in m && Belongs(m, parent, i, m[x], k)
    ensures IsKid(m, parent, i, z) && forall y | IsKid(m, parent, i, y) :: y == z
  {
    AboveIs(m, x, parent, k);
    KidsBefore(m, parent, i, Above(m, x, k));
    z :| IsKid(m, parent, i, z);
    forall y | IsKid(m, parent, i, y) ensures y == z { OneKid(m, parent, i, z, y); }
  }

  /** Whatever is below `parent` by way of such a child is found, if the levels suffice. */
  lemma {:induction false} EntriesHave(m: Model, parent: Option<nat>, i: nat, d: nat, x: nat, k: nat)
    requires Siblings(m) && x in m && Belongs(m, parent, i, m[x], k) && k < d
    ensures m[x] in Entries(m, parent, i, d)
    decreases d, |LaterKids(m, parent, i)|
  {
    var z := FirstKid(m, parent, i, x, k);
    EntriesUnfold(m, parent, i, d, z);
    FewerKids(m, parent, i, z);
    BelongsSplits(m, parent, i, x, k, z);
    if k == 0 && x == z {
    } else if k > 0 && Belongs(m, Some(z), 0, m[x], k - 1) {
      EntriesHave(m, Some(z), 0, d - 1, x, k - 1);
    } else {
      EntriesHave(m, parent, i + 1, d, x, k);
    }
  }

  // ---------------------------------------------------------------- no entry twice

  predicate ApartIds(a: seq<Entry>, b: seq<Entry>) {
    forall x, y | x in a && y in b :: x.id != y.id
  }

  lemma DistinctJoin(a: seq<Entry>, b: seq<Entry>)
    requires DistinctIds(a) && DistinctIds(b) && ApartIds(a, b)
    ensures DistinctIds(a + b)
  {
    var all := a + b;
    forall i, j | 0 <= i < j < |all| ensures all[i].id != all[j].id {
      if i < |a| && j >= |a| { assert a[i] in a && b[j - |a|] in b; }
    }
  }

  /** `x` is `z` or below it. */
  lemma WayOfFirst(m: Model, parent: Option<nat>, d: nat, z: nat, x: Entry) returns (j: nat)
    requires Siblings(m) && d > 0 && z in m && m[z].parent == parent
    requires x in [m[z]] + Entries(m, Some(z), 0, d - 1)
    ensures Under(m, x.id, parent, j) && Above(m, x.id, j) == z
  {
    j := 0;
    if x in Entries(m, Some(z), 0, d - 1) {
      j := EntriesBelong(m, Some(z), 0, d - 1, x);
      UnderMore(m, x.id, z, j);
      j := j + 1;
    }
  }

  /** One climbs to `z`, the other to a later sibling. */
  lemma OtherWay(m: Model, parent: Option<nat>, a: nat, i: nat, z: nat, x: Entry, y: Entry, j: nat, k: nat)
    requires Anchored(m, parent, a) && IsKid(m, parent, i, z)
    requires Under(m, x.id, parent, j) && Above(m, x.id, j) == z && Belongs(m, parent, i + 1, y, k)
    ensures x.id != y.id
  {
    if x.id == y.id { OneDistance(m, x.id, parent, a, j, k); }
  }

  lemma LaterApart(m: Model, parent: Option<nat>, a: nat, i: nat, d: nat, z: nat)
    requires Siblings(m) && Anchored(m, parent, a) && d > 0 && IsKid(m, parent, i, z)
    ensures ApartIds([m[z]] + Entries(m, Some(z), 0, d - 1), Entries(m, parent, i + 1, d))
  {
    forall x, y | x in [m[z]] + Entries(m, Some(z), 0, d - 1) && y in Entries(m, parent, i + 1, d)
      ensures x.id != y.id
    {
      var j := WayOfFirst(m, parent, d, z, x);
      var k := EntriesBelong(m, parent, i + 1, d, y);
      OtherWay(m, parent, a, i, z, x, y, j, k);
    }
  }

  lemma BelowApart(m: Model, a: nat, d: nat, z: nat)
    requires Siblings(m) && z in m && Under(m, z, None, a)
    ensures ApartIds([m[z]], Entries(m, Some(z), 0, d))
  {
    forall y | y in Entries(m, Some(z), 0, d) ensures y.id != z {
      var k := EntriesBelong(m, Some(z), 0, d, y);
      NotBelowItself(m, z, a, k);
    }
  }

  lemma {:induction false} EntriesDistinct(m: Model, parent: Option<nat>, a: nat, i: nat, d: nat)
    requires Siblings(m) && Anchored(m, parent, a)
    ensures DistinctIds(Entries(m, parent, i, d))
    decreases d, |LaterKids(m, parent, i)|
  {
    if d == 0 || !exists z :: IsKid(m, parent, i, z) {
      NoEntries(m, parent, i, d);
    } else {
      var z :| IsKid(m, parent, i, z);
      KidAnchored(m, parent, a, z);
      EntriesUnfold(m, parent, i, d, z);
      FewerKids(m, parent, i, z);
      EntriesDistinct(m, Some(z), Deeper(parent, a), 0, d - 1);
      EntriesDistinct(m, parent, a, i + 1, d);
      BelowApart(m, Deeper(parent, a), d - 1, z);
      LaterApart(m, parent, a, i, d, z);
      DistinctJoin([m[z]], Entries(m, Some(z), 0, d - 1));
      DistinctJoin([m[z]] + Entries(m, Some(z), 0, d - 1), Entries(m, parent, i + 1, d));
    }
  }

  // ---------------------------------------------------------------- exactly the models of trees

  ghost function Rebuilt(m: Model): seq<SemanticsNode> {
    Build(m, None, 0, |m| + 1)
  }

  lemma AllFound(m: Model, x: nat)
    requires Siblings(m) && Rooted(m) && x in m
    ensures m[x] in Entries(m, None, 0, |m| + 1)
  {
    var k := RootUnder(m, x, |m|);
    AboveIs(m, x, None, k);
    EntriesHave(m, None, 0, |m| + 1, x, k);
  }

  /** Rebuilding a tree from its shape and flattening it again gives the model back. */
  lemma RebuiltModel(m: Model)
    requires Siblings(m) && Rooted(m)
    ensures DistinctIds(Flattened(Rebuilt(m))) && MapOf(Flattened(Rebuilt(m))) == m
    ensures forall e | e in Flattened(Rebuilt(m)) :: e.id in m && e == m[e.id]
  {
    var s := Flattened(Rebuilt(m));
    assert s == Entries(m, None, 0, |m| + 1);
    EntriesDistinct(m, None, 0, 0, |m| + 1);
    forall e | e in s ensures e.id in m && e == m[e.id] {
      var k := EntriesBelong(m, None, 0, |m| + 1, e);
    }
    forall x | x in m ensures m[x] in s { AllFound(m, x); }
    SameModel(m, s);
  }

  lemma SameModel(m: Model, s: seq<Entry>)
    requires Keyed(m) && DistinctIds(s) && (forall e | e in s :: e.id in m && e == m[e.id])
    requires forall x | x in m :: m[x] in s
    ensures MapOf(s) == m
  {
    forall x ensures x in MapOf(s) <==> x in m {
      MapOfPos(s, x);
      if x in MapOf(s) { assert s[Pos(s, x)] in s; }
      if x in m {
        var i :| 0 <= i < |s| && s[i] == m[x];
        PosAt(s, i);
      }
    }
    forall x | x in m ensures MapOf(s)[x] == m[x] {
      MapOfPos(s, x);
      assert s[Pos(s, x)] in s;
    }
  }

  /** A tree that can be published, with bounds that can be shown. */
  predicate Showable(roots: seq<SemanticsNode>) {
    Acceptable(Flattened(roots)) && AllBoundsOk(Flattened(roots))
  }

  lemma RebuiltShowable(m: Model)
    requires Keyed(m) && HierarchyOk(m)
    ensures Showable(Rebuilt(m)) && MapOf(Flattened(Rebuilt(m))) == m
  {
    var s := Flattened(Rebuilt(m));
    RebuiltModel(m);
    forall i, j | 0 <= i < j < |s| ensures !(s[i].info.focused && s[j].info.focused) {
      assert s[i] in s && s[j] in s && s[i].id != s[j].id;
    }
  }

  lemma ShowableKeyed(roots: seq<SemanticsNode>)
    requires Acceptable(Flattened(roots))
    ensures Keyed(MapOf(Flattened(roots)))
  {
    var s := Flattened(roots);
    forall id | id in MapOf(s) ensures MapOf(s)[id].id == id && id != 0 {
      MapOfPos(s, id);
      assert s[Pos(s, id)] in s;
    }
  }

  /** The checks pass exactly for the models of trees that can be published and shown. */
  lemma HierarchyExactly(m: Model)
    ensures Keyed(m) && HierarchyOk(m) <==>
            exists roots :: Showable(roots) && MapOf(Flattened(roots)) == m
  {
    if Keyed(m) && HierarchyOk(m) { RebuiltShowable(m); }
    forall roots | Showable(roots) && MapOf(Flattened(roots)) == m ensures Keyed(m) && HierarchyOk(m) {
      ShowableKeyed(roots);
      FlattenedHierarchy(roots);
    }
  }

  lemma ApplyOneKeyed(m: Model, c: Change)
    requires Keyed(m) && c.entry.id != 0 && ApplyOne(m, c).Some?
    ensures Keyed(ApplyOne(m, c).value)
  {
  }

  lemma {:induction false} ApplyKeyed(m: Model, changes: seq<Change>)
    requires Keyed(m) && (forall c | c in changes :: c.entry.id != 0) && ApplyAll(m, changes).Some?
    ensures Keyed(ApplyAll(m, changes).value)
  {
    if changes != [] {
      var front := changes[..|changes| - 1];
      ApplyKeyed(m, front);
      assert changes[|changes| - 1] in changes;
      ApplyOneKeyed(ApplyAll(m, front).value, changes[|changes| - 1]);
    }
  }

  /** Whatever batch an adapter accepts, its model is again that of a tree; any other batch it refuses. */
  lemma AcceptsExactly(m: Model, changes: seq<Change>)
    requires Keyed(m)
    ensures Accepts(m, changes) <==>
            && (forall c | c in changes :: c.entry.id != 0)
            && exists roots :: Showable(roots) && ApplyAll(m, changes) == Some(MapOf(Flattened(roots)))
  {
    if (forall c | c in changes :: c.entry.id != 0) && ApplyAll(m, changes).Some? {
      var next := ApplyAll(m, changes).value;
      ApplyKeyed(m, changes);
      HierarchyExactly(next);
    }
  }
}
