/**
 Why a flattening may be kept as a map: parent links and child indices determine the preorder.
 Consequences for the adapter's acceptance checks and for empty batches
 (src/rendering.cpp, SemanticsDiffer; src/platform/win32_accessibility.cpp, rebuild_hierarchy).
 */
module SemanticsOrder {
  import opened Common
  import opened Semantics
  import opened SemanticsDiff

  ghost predicate HasId(s: seq<Entry>, id: nat) {
    exists e :: e in s && e.id == id
  }

  /** `parent` is not one of the ids below it. */
  ghost predicate Outside(parent: Option<nat>, s: seq<Entry>) {
    parent.Some? ==> !HasId(s, parent.value)
  }

  ghost predicate DisjointIds(a: seq<Entry>, b: seq<Entry>) {
    forall x, y | x in a && y in b :: x.id != y.id
  }

  lemma SplitIds(e: Entry, a: seq<Entry>, b: seq<Entry>)
    requires DistinctIds([e] + a + b)
    ensures DistinctIds(a) && DistinctIds(b) && DisjointIds(a, b) && !HasId(a, e.id) && !HasId(b, e.id)
  {
    var s := [e] + a + b;
    forall i, j | 0 <= i < j < |a| ensures a[i].id != a[j].id {
      assert s[1 + i] == a[i] && s[1 + j] == a[j];
    }
    forall i, j | 0 <= i < j < |b| ensures b[i].id != b[j].id {
      assert s[1 + |a| + i] == b[i] && s[1 + |a| + j] == b[j];
    }
    forall x, y | x in a && y in b ensures x.id != y.id {
      var i :| 0 <= i < |a| && a[i] == x;
      var j :| 0 <= j < |b| && b[j] == y;
      assert s[1 + i] == x && s[1 + |a| + j] == y;
    }
    forall x | x in a ensures x.id != e.id {
      var i :| 0 <= i < |a| && a[i] == x;
      assert s[0] == e && s[1 + i] == x;
    }
    forall x | x in b ensures x.id != e.id {
      var i :| 0 <= i < |b| && b[i] == x;
      assert s[0] == e && s[1 + |a| + i] == x;
    }
  }

  /** Every entry hangs under the common parent or under an entry before it. */
  lemma {:induction false} ParentBefore(nodes: seq<SemanticsNode>, parent: Option<nat>, k: nat, i: nat)
    requires i < |Flat(nodes, parent, k)|
    ensures var s := Flat(nodes, parent, k);
            s[i].parent == parent || exists j :: 0 <= j < i && s[i].parent == Some(s[j].id)
    decreases nodes
  {
    var s := Flat(nodes, parent, k);
    var x := nodes[0];
    var a, b := Flat(x.children, Some(x.id), 0), Flat(nodes[1..], parent, k + 1);
    if i == 0 {
    } else if i <= |a| {
      ParentBefore(x.children, Some(x.id), 0, i - 1);
      assert s[i] == a[i - 1] && s[0].id == x.id;
      if a[i - 1].parent != Some(x.id) {
        var j :| 0 <= j < i - 1 && a[i - 1].parent == Some(a[j].id);
        assert s[j + 1] == a[j];
      }
    } else {
      ParentBefore(nodes[1..], parent, k + 1, i - 1 - |a|);
      assert s[i] == b[i - 1 - |a|];
      if b[i - 1 - |a|].parent != parent {
        var j :| 0 <= j < i - 1 - |a| && b[i - 1 - |a|].parent == Some(b[j].id);
        assert s[j + 1 + |a|] == b[j];
      }
    }
  }

  lemma ParentInside(nodes: seq<SemanticsNode>, parent: Option<nat>, k: nat, e: Entry)
    requires e in Flat(nodes, parent, k)
    ensures e.parent == parent || (e.parent.Some? && HasId(Flat(nodes, parent, k), e.parent.value))
  {
    var s := Flat(nodes, parent, k);
    var i :| 0 <= i < |s| && s[i] == e;
    ParentBefore(nodes, parent, k, i);
    if e.parent != parent {
      var j :| 0 <= j < i && s[i].parent == Some(s[j].id);
      assert s[j] in s;
    }
  }

  /** The flattening of an acceptable tree is what the batch lemmas need. */
  lemma FlattenedOk(roots: seq<SemanticsNode>)
    requires DistinctIds(Flattened(roots))
    ensures WellFlattened(Flattened(roots))
  {
    var s := Flattened(roots);
    forall i | 0 <= i < |s| && s[i].parent.Some? ensures Pos(s, s[i].parent.value) < i {
      ParentBefore(roots, None, 0, i);
      var j :| 0 <= j < i && s[i].parent == Some(s[j].id);
      PosAt(s, j);
    }
  }

  // ---------------------------------------------------------------- siblings

  /** Among siblings at the top of a flattening the first has index `k` and is the first entry. */
  lemma {:induction false} TopIndex(nodes: seq<SemanticsNode>, parent: Option<nat>, k: nat, e: Entry)
    requires DistinctIds(Flat(nodes, parent, k)) && Outside(parent, Flat(nodes, parent, k))
    requires e in Flat(nodes, parent, k) && e.parent == parent
    ensures e.index >= k
    ensures e.index == k ==> e == Flat(nodes, parent, k)[0]
    decreases nodes
  {
    var x := nodes[0];
    var first, a, b := Entry(x.id, parent, k, x.info), Flat(x.children, Some(x.id), 0), Flat(nodes[1..], parent, k + 1);
    FlatUnfold(nodes, parent, k);
    SplitIds(first, a, b);
    Parts(nodes, parent, k, e);
    if e in b {
      OutsidePart(parent, [first] + a, b);
      TopIndex(nodes[1..], parent, k + 1, e);
    }
  }

  lemma FlatUnfold(nodes: seq<SemanticsNode>, parent: Option<nat>, k: nat)
    requires nodes != []
    ensures var x := nodes[0];
            Flat(nodes, parent, k) ==
            [Entry(x.id, parent, k, x.info)] + Flat(x.children, Some(x.id), 0) + Flat(nodes[1..], parent, k + 1)
    ensures Flat(nodes, parent, k)[0] in Flat(nodes, parent, k)
  {
  }

  lemma OutsidePart(parent: Option<nat>, a: seq<Entry>, b: seq<Entry>)
    requires Outside(parent, a + b)
    ensures Outside(parent, a) && Outside(parent, b)
  {
    if parent.Some? {
      forall e | e in a ensures e.id != parent.value { assert e in a + b; }
      forall e | e in b ensures e.id != parent.value { assert e in a + b; }
    }
  }

  ghost predicate IndicesApart(s: seq<Entry>) {
    forall x, y | x in s && y in s && x.parent == y.parent && x.index == y.index :: x == y
  }

  ghost predicate Preceded(s: seq<Entry>, parent: Option<nat>, k: nat) {
    forall x {:trigger HasPrevious(s, x)} | x in s && x.index > (if x.parent == parent then k else 0) ::
        HasPrevious(s, x)
  }

  /** Sibling indices are unique, and an index above the first one has a predecessor. */
  ghost predicate SiblingsIndexed(s: seq<Entry>, parent: Option<nat>, k: nat) {
    IndicesApart(s) && Preceded(s, parent, k)
  }

  ghost predicate HasPrevious(s: seq<Entry>, x: Entry) {
    exists y :: y in s && y.parent == x.parent && y.index + 1 == x.index
  }

  lemma {:induction false} FlatSiblings(nodes: seq<SemanticsNode>, parent: Option<nat>, k: nat)
    requires DistinctIds(Flat(nodes, parent, k)) && Outside(parent, Flat(nodes, parent, k))
    ensures SiblingsIndexed(Flat(nodes, parent, k), parent, k)
    decreases nodes
  {
    if nodes == [] {
    } else {
      var x, s := nodes[0], Flat(nodes, parent, k);
      var first, a, b := Entry(x.id, parent, k, x.info), Flat(x.children, Some(x.id), 0),
          Flat(nodes[1..], parent, k + 1);
      FlatUnfold(nodes, parent, k);
      SplitIds(first, a, b);
      OutsidePart(parent, [first] + a, b);
      FlatSiblings(x.children, Some(x.id), 0);
      FlatSiblings(nodes[1..], parent, k + 1);
      forall e | e in s ensures Part(e, first, a, b, parent) { Parts(nodes, parent, k, e); }
      forall e | e in b && e.parent == parent ensures e.index > k { TopIndex(nodes[1..], parent, k + 1, e); }
      PartsApart(first, a, b, parent, k);
      PartsPreceded(first, a, b, parent, k);
    }
  }

  /** Siblings of the three parts never share an index. */
  lemma PartsApart(first: Entry, a: seq<Entry>, b: seq<Entry>, parent: Option<nat>, k: nat)
    requires first.parent == parent && first.index == k
    requires forall e | e in [first] + a + b :: Part(e, first, a, b, parent)
    requires forall e | e in b && e.parent == parent :: e.index > k
    requires IndicesApart(a) && IndicesApart(b)
    ensures IndicesApart([first] + a + b)
  {
    forall u, v | u in [first] + a + b && v in [first] + a + b && u.parent == v.parent && u.index == v.index
      ensures u == v {
      assert Part(u, first, a, b, parent) && Part(v, first, a, b, parent);
    }
  }

  /** Every sibling but the first has one right before it. */
  lemma PartsPreceded(first: Entry, a: seq<Entry>, b: seq<Entry>, parent: Option<nat>, k: nat)
    requires first.parent == parent && first.index == k
    requires forall e | e in [first] + a + b :: Part(e, first, a, b, parent)
    requires Preceded(a, Some(first.id), 0) && Preceded(b, parent, k + 1)
    ensures Preceded([first] + a + b, parent, k)
  {
    var s := [first] + a + b;
    forall u | u in s && u.index > (if u.parent == parent then k else 0) ensures HasPrevious(s, u) {
      assert Part(u, first, a, b, parent);
      if u in a {
        MorePrevious(a, s, u);
      } else if u.parent == parent && u.index == k + 1 {
        assert first in s;
      } else {
        MorePrevious(b, s, u);
      }
    }
  }

  lemma MorePrevious(part: seq<Entry>, s: seq<Entry>, u: Entry)
    requires HasPrevious(part, u) && forall e | e in part :: e in s
    ensures HasPrevious(s, u)
  {
    var y :| y in part && y.parent == u.parent && y.index + 1 == u.index;
    assert y in s;
  }

  /** Where an entry of a flattening sits, and which parents are possible there. */
  ghost predicate Part(e: Entry, first: Entry, a: seq<Entry>, b: seq<Entry>, parent: Option<nat>) {
    || (e == first && e !in a && e !in b)
    || (e in a && e !in b && e.parent != parent && e.parent.Some? && !HasId(b, e.parent.value))
    || (e in b && e !in a && (e.parent == parent || (e.parent.Some? && HasId(b, e.parent.value))))
  }

  lemma Parts(nodes: seq<SemanticsNode>, parent: Option<nat>, k: nat, e: Entry)
    requires nodes != [] && e in Flat(nodes, parent, k)
    requires DistinctIds(Flat(nodes, parent, k)) && Outside(parent, Flat(nodes, parent, k))
    ensures Part(e, Entry(nodes[0].id, parent, k, nodes[0].info), Flat(nodes[0].children, Some(nodes[0].id), 0),
                 Flat(nodes[1..], parent, k + 1), parent)
  {
    var x := nodes[0];
    var first, a, b := Entry(x.id, parent, k, x.info), Flat(x.children, Some(x.id), 0), Flat(nodes[1..], parent, k + 1);
    FlatUnfold(nodes, parent, k);
    SplitIds(first, a, b);
    OutsidePart(parent, [first] + a, b);
    OutsidePart(parent, [first], a);
    if e in a {
      ParentInside(x.children, Some(x.id), 0, e);
      assert e.parent != parent by { assert first in [first]; }
      assert !HasId(b, e.parent.value);
    } else if e in b {
      ParentInside(nodes[1..], parent, k + 1, e);
    }
  }

  // ---------------------------------------------------------------- the map determines the order

  /** Descendants of the first sibling are the same entries in both flattenings. */
  lemma {:induction false} InnerSame(f: seq<SemanticsNode>, g: seq<SemanticsNode>, parent: Option<nat>, k: nat, i: nat)
    requires f != [] && g != [] && f[0].id == g[0].id && f[0].info == g[0].info
    requires DistinctIds(Flat(f, parent, k)) && Outside(parent, Flat(f, parent, k))
    requires DistinctIds(Flat(g, parent, k)) && Outside(parent, Flat(g, parent, k))
    requires forall e :: e in Flat(f, parent, k) ==> e in Flat(g, parent, k)
    requires i < |Flat(f[0].children, Some(f[0].id), 0)|
    ensures Flat(f[0].children, Some(f[0].id), 0)[i] in Flat(g[0].children, Some(g[0].id), 0)
    decreases i
  {
    var x := f[0];
    var first, a, a' := Entry(x.id, parent, k, x.info), Flat(x.children, Some(x.id), 0),
        Flat(g[0].children, Some(x.id), 0);
    var b' := Flat(g[1..], parent, k + 1);
    var e := a[i];
    assert e in Flat(f, parent, k);
    Parts(f, parent, k, e);
    Parts(g, parent, k, e);
    ParentBefore(x.children, Some(x.id), 0, i);
    FlatUnfold(g, parent, k);
    SplitIds(first, a', b');
    if e in b' {
      if e.parent != Some(x.id) {
        var j :| 0 <= j < i && e.parent == Some(a[j].id);
        InnerSame(f, g, parent, k, j);
      }
      assert false;
    }
  }

  /** Two flattenings with the same entries are the same sequence. */
  lemma {:induction false} SameFlat(f: seq<SemanticsNode>, g: seq<SemanticsNode>, parent: Option<nat>, k: nat)
    requires DistinctIds(Flat(f, parent, k)) && Outside(parent, Flat(f, parent, k))
    requires DistinctIds(Flat(g, parent, k)) && Outside(parent, Flat(g, parent, k))
    requires forall e :: e in Flat(f, parent, k) <==> e in Flat(g, parent, k)
    ensures Flat(f, parent, k) == Flat(g, parent, k)
    decreases f
  {
    if f == [] || g == [] {
      if f != [] { FlatUnfold(f, parent, k); }
      if g != [] { FlatUnfold(g, parent, k); }
    } else {
      FirstSame(f, g, parent, k);
      var first := Entry(f[0].id, parent, k, f[0].info);
      var a, a' := Flat(f[0].children, Some(f[0].id), 0), Flat(g[0].children, Some(f[0].id), 0);
      var b, b' := Flat(f[1..], parent, k + 1), Flat(g[1..], parent, k + 1);
      FlatUnfold(f, parent, k);
      FlatUnfold(g, parent, k);
      SplitIds(first, a, b);
      SplitIds(first, a', b');
      OutsidePart(parent, [first] + a, b);
      OutsidePart(parent, [first] + a', b');
      forall i | 0 <= i < |a| ensures a[i] in a' { InnerSame(f, g, parent, k, i); }
      forall i | 0 <= i < |a'| ensures a'[i] in a { InnerSame(g, f, parent, k, i); }
      RestSame(first, a, b, a', b');
      SameFlat(f[0].children, g[0].children, Some(f[0].id), 0);
      SameFlat(f[1..], g[1..], parent, k + 1);
    }
  }

  lemma FirstSame(f: seq<SemanticsNode>, g: seq<SemanticsNode>, parent: Option<nat>, k: nat)
    requires f != [] && g != []
    requires DistinctIds(Flat(g, parent, k)) && Outside(parent, Flat(g, parent, k))
    requires forall e :: e in Flat(f, parent, k) <==> e in Flat(g, parent, k)
    ensures f[0].id == g[0].id && f[0].info == g[0].info
  {
    var first := Flat(f, parent, k)[0];
    assert first in Flat(f, parent, k);
    TopIndex(g, parent, k, first);
  }

  lemma RestSame(first: Entry, a: seq<Entry>, b: seq<Entry>, a': seq<Entry>, b': seq<Entry>)
    requires DistinctIds([first] + a + b) && DistinctIds([first] + a' + b')
    requires forall e :: e in [first] + a + b <==> e in [first] + a' + b'
    requires forall e :: e in a <==> e in a'
    ensures forall e :: e in b <==> e in b'
  {
    SplitIds(first, a, b);
    SplitIds(first, a', b');
    forall e | e in b ensures e in b' { assert e in [first] + a + b && e !in a && e != first; }
    forall e | e in b' ensures e in b { assert e in [first] + a' + b' && e !in a' && e != first; }
  }

  lemma InMap(s: seq<Entry>, e: Entry)
    requires DistinctIds(s)
    ensures e in s <==> e.id in MapOf(s) && MapOf(s)[e.id] == e
  {
    MapOfPos(s, e.id);
    if e in s {
      var i :| 0 <= i < |s| && s[i] == e;
      PosAt(s, i);
    }
  }

  /** The entry map of an acceptable tree determines its flattening, order included. */
  lemma MapDeterminesOrder(f: seq<SemanticsNode>, g: seq<SemanticsNode>)
    requires DistinctIds(Flattened(f)) && DistinctIds(Flattened(g))
    requires MapOf(Flattened(f)) == MapOf(Flattened(g))
    ensures Flattened(f) == Flattened(g)
  {
    forall e ensures e in Flattened(f) <==> e in Flattened(g) {
      InMap(Flattened(f), e);
      InMap(Flattened(g), e);
    }
    SameFlat(f, g, None, 0);
  }

  lemma {:induction false} NoChange(s: seq<Entry>, i: nat)
    requires DistinctIds(s) && i <= |s|
    ensures AddsTo(MapOf(s), s, i) == [] && UpdatesTo(MapOf(s), s, i) == [] && RemovesTo(s, MapOf(s), i) == []
  {
    if i > 0 {
      NoChange(s, i - 1);
      PosAt(s, i - 1);
      PosAt(s, |s| - i);
    }
  }

  /** A batch is empty exactly when nothing changed, neither the entries nor their order. */
  lemma EmptyIffSame(f: seq<SemanticsNode>, g: seq<SemanticsNode>)
    requires DistinctIds(Flattened(f)) && DistinctIds(Flattened(g))
    ensures Diff(Flattened(f), Flattened(g)) == [] <==> Flattened(f) == Flattened(g)
  {
    var o, n := Flattened(f), Flattened(g);
    DiffReaches(o, n);
    if Diff(o, n) == [] { MapDeterminesOrder(f, g); }
    if o == n { NoChange(o, |o|); }
  }

  // ---------------------------------------------------------------- what the adapter checks

  /** valid_rect, on finite numbers. */
  predicate BoundsOk(b: Bounds) {
    b.width >= 0.0 && b.height >= 0.0
  }

  predicate ModelBoundsOk(m: Model) {
    forall id | id in m :: BoundsOk(m[id].info.bounds)
  }

  predicate AllBoundsOk(s: seq<Entry>) {
    forall e | e in s :: BoundsOk(e.info.bounds)
  }

  /** The acceptance conditions of rebuild_hierarchy on a whole model. */
  predicate HierarchyOk(m: Model) {
    && ModelBoundsOk(m)
    && (forall id | id in m :: InfoOk(m[id].info))
    && (forall x, y | x in m && y in m && m[x].info.focused && m[y].info.focused :: x == y)
    && (forall id | id in m && m[id].parent.Some? :: m[id].parent.value in m && m[id].parent.value != id)
    && (forall id | id in m :: RootWithin(m, id, |m|))
    && (forall x, y | x in m && y in m && m[x].parent == m[y].parent && m[x].index == m[y].index :: x == y)
    && (forall x {:trigger PreviousIn(m, x)} | x in m && m[x].index > 0 :: PreviousIn(m, x))
  }

  predicate PreviousIn(m: Model, x: nat)
    requires x in m
  {
    exists y :: y in m && m[y].parent == m[x].parent && m[y].index + 1 == m[x].index
  }

  predicate Accepts(m: Model, changes: seq<Change>) {
    && (forall c | c in changes :: c.entry.id != 0)
    && ApplyAll(m, changes).Some? && HierarchyOk(ApplyAll(m, changes).value)
  }

  lemma {:induction false} MapSize(s: seq<Entry>)
    requires DistinctIds(s)
    ensures |MapOf(s)| == |s|
  {
    if s != [] {
      var t, e := s[..|s| - 1], s[|s| - 1];
      MapSize(t);
      MapOfPos(t, e.id);
      assert MapOf(s).Keys == MapOf(t).Keys + {e.id};
    }
  }

  lemma FlattenedRooted(s: seq<Entry>, id: nat)
    requires WellFlattened(s) && id in MapOf(s)
    ensures MapOf(s)[id].parent.Some? ==> MapOf(s)[id].parent.value in MapOf(s) && MapOf(s)[id].parent.value != id
    ensures RootWithin(MapOf(s), id, |MapOf(s)|)
  {
    var m := MapOf(s);
    var rank := map x | x in m :: Pos(s, x);
    forall x | x in m && m[x].parent.Some? ensures m[x].parent.value in m && rank[m[x].parent.value] < rank[x] {
      MapOfPos(s, x);
      MapOfPos(s, m[x].parent.value);
    }
    MapSize(s);
    RankedRoot(m, rank, id, |m|);
  }

  lemma FlattenedSiblings(roots: seq<SemanticsNode>)
    requires DistinctIds(Flattened(roots))
    ensures var m := MapOf(Flattened(roots));
            && (forall x, y | x in m && y in m && m[x].parent == m[y].parent && m[x].index == m[y].index :: x == y)
            && (forall x {:trigger PreviousIn(m, x)} | x in m && m[x].index > 0 :: PreviousIn(m, x))
  {
    var s := Flattened(roots);
    var m := MapOf(s);
    FlatSiblings(roots, None, 0);
    forall x | x in m ensures m[x] in s && m[x].id == x { MapOfPos(s, x); }
    forall x | x in m && m[x].index > 0 ensures PreviousIn(m, x) {
      assert HasPrevious(s, m[x]);
      var e :| e in s && e.parent == m[x].parent && e.index + 1 == m[x].index;
      InMap(s, e);
    }
  }

  lemma BoundsInMap(s: seq<Entry>)
    requires DistinctIds(s)
    ensures AllBoundsOk(s) <==> ModelBoundsOk(MapOf(s))
  {
    var m := MapOf(s);
    if AllBoundsOk(s) {
      forall id | id in m ensures BoundsOk(m[id].info.bounds) {
        MapOfPos(s, id);
        assert s[Pos(s, id)] in s;
      }
    } else {
      var e :| e in s && !BoundsOk(e.info.bounds);
      InMap(s, e);
      assert !BoundsOk(m[e.id].info.bounds);
    }
  }

  /** The model of an acceptable tree satisfies every check of the adapter, if its bounds are valid and only then. */
  lemma FlattenedHierarchy(roots: seq<SemanticsNode>)
    requires Acceptable(Flattened(roots))
    ensures HierarchyOk(MapOf(Flattened(roots))) <==> AllBoundsOk(Flattened(roots))
  {
    var s := Flattened(roots);
    var m := MapOf(s);
    BoundsInMap(s);
    FlattenedOk(roots);
    FlattenedSiblings(roots);
    forall id | id in m ensures InfoOk(m[id].info) && RootWithin(m, id, |m|) {
      MapOfPos(s, id);
      FlattenedRooted(s, id);
    }
    forall id | id in m && m[id].parent.Some? ensures m[id].parent.value in m && m[id].parent.value != id {
      FlattenedRooted(s, id);
    }
    forall x, y | x in m && y in m && m[x].info.focused && m[y].info.focused ensures x == y {
      MapOfPos(s, x);
      MapOfPos(s, y);
    }
  }

  lemma {:induction false} DiffIds(old_: seq<Entry>, next: seq<Entry>, c: Change)
    requires c in Diff(old_, next)
    ensures c.entry in old_ || c.entry in next
  {
    var o, n := MapOf(old_), MapOf(next);
    AddsIds(o, next, |next|);
    RemovesIds(old_, n, |old_|);
  }

  lemma {:induction false} AddsIds(o: Model, next: seq<Entry>, i: nat)
    requires i <= |next|
    ensures forall c | c in AddsTo(o, next, i) || c in UpdatesTo(o, next, i) :: c.entry in next
  {
    if i > 0 { AddsIds(o, next, i - 1); }
  }

  lemma {:induction false} RemovesIds(old_: seq<Entry>, n: Model, r: nat)
    requires r <= |old_|
    ensures forall c | c in RemovesTo(old_, n, r) :: c.entry in old_
  {
    if r > 0 { RemovesIds(old_, n, r - 1); }
  }

  /** Between acceptable trees the batch gives the new model, accepted exactly when the new bounds are valid. */
  lemma BatchAccepted(f: seq<SemanticsNode>, g: seq<SemanticsNode>)
    requires Acceptable(Flattened(f)) && Acceptable(Flattened(g))
    ensures Accepts(MapOf(Flattened(f)), Diff(Flattened(f), Flattened(g))) <==> AllBoundsOk(Flattened(g))
    ensures ApplyAll(MapOf(Flattened(f)), Diff(Flattened(f), Flattened(g))) == Some(MapOf(Flattened(g)))
  {
    DiffReaches(Flattened(f), Flattened(g));
    FlattenedHierarchy(g);
    forall c | c in Diff(Flattened(f), Flattened(g)) ensures c.entry.id != 0 {
      DiffIds(Flattened(f), Flattened(g), c);
    }
  }
}
