/**
 Where the commands of a frame come from and end up (src/rendering.cpp): each is what some painted object
 recorded, moved by the sum of the offsets on the way from the root to that object, and nothing is left out.
 */
module Placement {
  import opened Common
  import opened Layers
  import opened RenderTree

  /** A command as an object draws it, with the way from the root of the paint down to the object. */
  datatype Drawn = Drawn(chain: seq<Id>, command: Command)

  /** Child number `i` is painted. */
  predicate ShownAt(n: Node, i: nat) {
    i < |n.children| && (n.range.Some? ==> n.range.value.0 <= i < n.range.value.1)
  }

  function Own(cs: seq<Command>, chain: seq<Id>): seq<Drawn> {
    seq(|cs|, i requires 0 <= i < |cs| => Drawn(chain, cs[i]))
  }

  /** What `id` and the objects below it draw, in order: clip, content, children, end of clip. */
  ghost function TreeItems(t: Tree, id: Id, chain: seq<Id>): seq<Drawn>
    requires WellFormed(t) && id in t
    decreases t[id].level, |t[id].children| + 1
  {
    var n := t[id];
    (if n.clip.Some? then [Drawn(chain, PushClip(n.clip.value))] else [])
    + Own(n.content, chain)
    + KidItems(t, id, |n.children|, chain)
    + (if n.clip.Some? then [Drawn(chain, PopClip)] else [])
  }

  /** The same for those among the first `i` children that are painted. */
  ghost function KidItems(t: Tree, id: Id, i: nat, chain: seq<Id>): seq<Drawn>
    requires WellFormed(t) && id in t && i <= |t[id].children|
    decreases t[id].level, i
  {
    if i == 0 || !RangeOk(t[id]) then []
    else KidItems(t, id, i - 1, chain) + ChildItems(t, id, i - 1, chain)
  }

  ghost function ChildItems(t: Tree, id: Id, i: nat, chain: seq<Id>): seq<Drawn>
    requires WellFormed(t) && id in t && i < |t[id].children|
    decreases t[id].level, i
  {
    var c := t[id].children[i];
    if ShownAt(t[id], i) then TreeItems(t, c, chain + [c]) else []
  }

  /** The offsets along a chain of objects. */
  ghost function Offsets(t: Tree, chain: seq<Id>): seq<Offset> {
    seq(|chain|, i requires 0 <= i < |chain| => if chain[i] in t then t[chain[i]].offset else ORIGIN)
  }

  ghost function Located(t: Tree, items: seq<Drawn>): seq<Item> {
    seq(|items|, i requires 0 <= i < |items| => Item(items[i].command, Offsets(t, items[i].chain)))
  }

  // ---------------------------------------------------------------- a full paint draws exactly that

  lemma LocatedConcat(t: Tree, a: seq<Drawn>, b: seq<Drawn>)
    ensures Located(t, a + b) == Located(t, a) + Located(t, b)
  {
  }

  lemma BothPlaced(t: Tree, cs: seq<Command>, ds: seq<Command>, a: seq<Drawn>, b: seq<Drawn>, base: Offset)
    requires AllPlaced(cs, Located(t, a), base) && AllPlaced(ds, Located(t, b), base)
    ensures AllPlaced(cs + ds, Located(t, a + b), base)
  {
    LocatedConcat(t, a, b);
    PlacedConcat(cs, ds, Located(t, a), Located(t, b), base);
  }

  lemma OwnPlaced(t: Tree, cs: seq<Command>, chain: seq<Id>, base: Offset, at: Offset)
    requires Reached(base, Offsets(t, chain), at)
    ensures AllPlaced(ShiftAll(cs, at), Located(t, Own(cs, chain)), base)
  {
    ShiftAllPlaced(cs, base, Offsets(t, chain), at);
    assert Located(t, Own(cs, chain)) == Marked(cs, Offsets(t, chain));
  }

  lemma ClipPlaced(t: Tree, n: Node, chain: seq<Id>, base: Offset, at: Offset)
    requires Reached(base, Offsets(t, chain), at)
    ensures var open := if n.clip.Some? then [Drawn(chain, PushClip(n.clip.value))] else [];
            AllPlaced(ClipPush(n, at), Located(t, open), base)
    ensures var close := if n.clip.Some? then [Drawn(chain, PopClip)] else [];
            AllPlaced(ClipPop(n), Located(t, close), base)
  {
    if n.clip.Some? { ShiftPlaced(PushClip(n.clip.value), base, Offsets(t, chain), at); }
  }

  /** A full paint is what the objects draw, each command moved by the offsets on the way to its object. */
  lemma {:induction false} PaintPlaced(t: Tree, id: Id, chain: seq<Id>, base: Offset, at: Offset)
    requires WellFormed(t) && id in t && Reached(base, Offsets(t, chain), at)
    ensures AllPlaced(Paint(t, id, at), Located(t, TreeItems(t, id, chain)), base)
    decreases t[id].level, |t[id].children| + 1
  {
    var n := t[id];
    var open, close := if n.clip.Some? then [Drawn(chain, PushClip(n.clip.value))] else [],
                       if n.clip.Some? then [Drawn(chain, PopClip)] else [];
    var own, kids := Own(n.content, chain), KidItems(t, id, |n.children|, chain);
    var paint := PaintKids(t, id, |Painted(n)|, at);
    ClipPlaced(t, n, chain, base, at);
    OwnPlaced(t, n.content, chain, base, at);
    KidsPlaced(t, id, |n.children|, chain, base, at);
    AllShown(n);
    BothPlaced(t, ClipPush(n, at), ShiftAll(n.content, at), open, own, base);
    BothPlaced(t, ClipPush(n, at) + ShiftAll(n.content, at), paint, open + own, kids, base);
    BothPlaced(t, ClipPush(n, at) + ShiftAll(n.content, at) + paint, ClipPop(n), open + own + kids, close, base);
  }

  /** How many of the first `i` children are painted. */
  function ShownCount(n: Node, i: nat): nat
    requires i <= |n.children|
  {
    if !RangeOk(n) then 0
    else if n.range.None? then i
    else if i <= n.range.value.0 then 0
    else if i <= n.range.value.1 then i - n.range.value.0
    else n.range.value.1 - n.range.value.0
  }

  lemma ShownIs(n: Node, i: nat)
    requires i < |n.children| && RangeOk(n)
    ensures ShownCount(n, i + 1) == ShownCount(n, i) + if ShownAt(n, i) then 1 else 0
    ensures ShownCount(n, i + 1) <= |Painted(n)|
    ensures ShownAt(n, i) ==> Painted(n)[ShownCount(n, i)] == n.children[i]
  {
  }

  lemma AllShown(n: Node)
    ensures ShownCount(n, |n.children|) == |Painted(n)|
  {
  }

  /** The first `i` children, as far as they are painted, are in their places. */
  ghost predicate KidsInPlace(t: Tree, id: Id, i: nat, chain: seq<Id>, base: Offset, at: Offset)
    requires WellFormed(t) && id in t && i <= |t[id].children|
  {
    var k := ShownCount(t[id], i);
    k <= |Painted(t[id])| && AllPlaced(PaintKids(t, id, k, at), Located(t, KidItems(t, id, i, chain)), base)
  }

  lemma NoKidsInPlace(t: Tree, id: Id, i: nat, chain: seq<Id>, base: Offset, at: Offset)
    requires WellFormed(t) && id in t && i <= |t[id].children| && (i == 0 || !RangeOk(t[id]))
    ensures KidsInPlace(t, id, i, chain, base, at)
  {
  }

  lemma {:induction false} KidsPlaced(t: Tree, id: Id, i: nat, chain: seq<Id>, base: Offset, at: Offset)
    requires WellFormed(t) && id in t && Reached(base, Offsets(t, chain), at) && i <= |t[id].children|
    ensures KidsInPlace(t, id, i, chain, base, at)
    decreases t[id].level, i, 1
  {
    if i == 0 || !RangeOk(t[id]) {
      NoKidsInPlace(t, id, i, chain, base, at);
    } else {
      KidsPlaced(t, id, i - 1, chain, base, at);
      ShownIs(t[id], i - 1);
      if ShownAt(t[id], i - 1) {
        ChildPlaced(t, id, i - 1, chain, base, at);
        KidJoined(t, id, i - 1, chain, base, at);
      } else {
        KidSkipped(t, id, i - 1, chain, base, at);
      }
    }
  }

  lemma KidJoined(t: Tree, id: Id, i: nat, chain: seq<Id>, base: Offset, at: Offset)
    requires WellFormed(t) && id in t && i < |t[id].children| && RangeOk(t[id]) && ShownAt(t[id], i)
    requires ShownCount(t[id], i) < |Painted(t[id])| && KidsInPlace(t, id, i, chain, base, at)
    requires AllPlaced(PaintKid(t, id, ShownCount(t[id], i), at), Located(t, ChildItems(t, id, i, chain)), base)
    ensures KidsInPlace(t, id, i + 1, chain, base, at)
  {
    BothPlaced(t, PaintKids(t, id, ShownCount(t[id], i), at), PaintKid(t, id, ShownCount(t[id], i), at),
               KidItems(t, id, i, chain), ChildItems(t, id, i, chain), base);
  }

  lemma KidSkipped(t: Tree, id: Id, i: nat, chain: seq<Id>, base: Offset, at: Offset)
    requires WellFormed(t) && id in t && i < |t[id].children| && RangeOk(t[id]) && !ShownAt(t[id], i)
    requires KidsInPlace(t, id, i, chain, base, at)
    ensures KidsInPlace(t, id, i + 1, chain, base, at)
  {
  }

  lemma ChildIs(t: Tree, id: Id, i: nat, chain: seq<Id>, k: nat, at: Offset)
    requires WellFormed(t) && id in t && i < |t[id].children| && ShownAt(t[id], i)
    requires k < |Painted(t[id])| && Painted(t[id])[k] == t[id].children[i]
    ensures var c := t[id].children[i];
            && PaintKid(t, id, k, at) == Paint(t, c, Plus(at, t[c].offset))
            && ChildItems(t, id, i, chain) == TreeItems(t, c, chain + [c])
  {
  }

  lemma OffsetsNext(t: Tree, chain: seq<Id>, c: Id, base: Offset, at: Offset)
    requires c in t && Reached(base, Offsets(t, chain), at)
    ensures Reached(base, Offsets(t, chain + [c]), Plus(at, t[c].offset))
  {
    assert Offsets(t, chain + [c]) == Offsets(t, chain) + [t[c].offset];
    ReachedNext(base, Offsets(t, chain), at, t[c].offset);
  }

  lemma {:induction false} ChildPlaced(t: Tree, id: Id, i: nat, chain: seq<Id>, base: Offset, at: Offset)
    requires WellFormed(t) && id in t && Reached(base, Offsets(t, chain), at) && i < |t[id].children|
    requires RangeOk(t[id]) && ShownAt(t[id], i)
    requires ShownCount(t[id], i) < |Painted(t[id])| && Painted(t[id])[ShownCount(t[id], i)] == t[id].children[i]
    ensures AllPlaced(PaintKid(t, id, ShownCount(t[id], i), at), Located(t, ChildItems(t, id, i, chain)), base)
    decreases t[id].level, i, 0
  {
    var c := t[id].children[i];
    OffsetsNext(t, chain, c, base, at);
    PaintPlaced(t, c, chain + [c], base, Plus(at, t[c].offset));
    ChildIs(t, id, i, chain, ShownCount(t[id], i), at);
  }

  /** What the whole tree below `root` draws, each command with the offsets on its way. */
  ghost function Composition(t: Tree, root: Id): seq<Item>
    requires WellFormed(t) && root in t
  {
    Located(t, TreeItems(t, root, []))
  }

  lemma PaintComposed(t: Tree, root: Id, at: Offset)
    requires WellFormed(t) && root in t
    ensures AllPlaced(Paint(t, root, at), Composition(t, root), at)
  {
    PaintPlaced(t, root, [], at, at);
  }

  // ---------------------------------------------------------------- which commands these are

  /** `c` is a painted child. */
  ghost predicate ShowsChild(n: Node, c: Id) {
    RangeOk(n) && exists i: nat | i < |n.children| :: n.children[i] == c && ShownAt(n, i)
  }

  /** From `id` down to the end of `way` each object is a painted child of the one before. */
  ghost predicate Leads(t: Tree, id: Id, way: seq<Id>)
    requires WellFormed(t) && id in t
    decreases |way|
  {
    way == [] || (ShowsChild(t[id], way[0]) && Leads(t, way[0], way[1..]))
  }

  function EndOf(id: Id, way: seq<Id>): Id {
    if way == [] then id else way[|way| - 1]
  }

  /** The object itself draws this command: its content, or the ends of its clip. */
  predicate DrawnBy(n: Node, c: Command) {
    c in n.content || (n.clip.Some? && (c == PushClip(n.clip.value) || c == PopClip))
  }

  /** `d` is drawn by the object at the end of this way. */
  ghost predicate ComesBy(t: Tree, id: Id, chain: seq<Id>, way: seq<Id>, d: Drawn)
    requires WellFormed(t) && id in t
  {
    && d.chain == chain + way && Leads(t, id, way)
    && EndOf(id, way) in t && DrawnBy(t[EndOf(id, way)], d.command)
  }

  lemma OwnHas(cs: seq<Command>, chain: seq<Id>, d: Drawn)
    ensures d in Own(cs, chain) <==> d.chain == chain && d.command in cs
  {
    if d.chain == chain && d.command in cs {
      var i :| 0 <= i < |cs| && cs[i] == d.command;
      assert Own(cs, chain)[i] == d;
    }
  }

  /** Child number `j` contributes `d`. */
  ghost predicate Contributes(t: Tree, id: Id, j: nat, chain: seq<Id>, d: Drawn)
    requires WellFormed(t) && id in t && j < |t[id].children|
  {
    RangeOk(t[id]) && d in ChildItems(t, id, j, chain)
  }

  lemma {:induction false} KidItemsHave(t: Tree, id: Id, i: nat, chain: seq<Id>, d: Drawn)
    requires WellFormed(t) && id in t && i <= |t[id].children|
    ensures d in KidItems(t, id, i, chain) <==> exists j: nat | j < i :: Contributes(t, id, j, chain, d)
  {
    if i > 0 && RangeOk(t[id]) {
      KidItemsHave(t, id, i - 1, chain, d);
      assert d in ChildItems(t, id, i - 1, chain) <==> Contributes(t, id, i - 1, chain, d);
    }
  }

  /** What is drawn is exactly what the objects reached through painted ranges draw. */
  lemma {:induction false} ItemsComeBy(t: Tree, id: Id, chain: seq<Id>, d: Drawn)
    requires WellFormed(t) && id in t
    ensures d in TreeItems(t, id, chain) <==> exists way :: ComesBy(t, id, chain, way, d)
    decreases t[id].level
  {
    OwnHas(t[id].content, chain, d);
    KidItemsHave(t, id, |t[id].children|, chain, d);
    if d in TreeItems(t, id, chain) {
      if d in KidItems(t, id, |t[id].children|, chain) {
        var j: nat :| j < |t[id].children| && Contributes(t, id, j, chain, d);
        ItemFromChild(t, id, j, chain, d);
      } else {
        assert chain + [] == chain;
        assert ComesBy(t, id, chain, [], d);
      }
    }
    forall way | ComesBy(t, id, chain, way, d) ensures d in TreeItems(t, id, chain) {
      if way == [] {
        assert chain + [] == chain;
      } else {
        ItemByChild(t, id, chain, way, d);
      }
    }
  }

  lemma {:induction false} ItemFromChild(t: Tree, id: Id, j: nat, chain: seq<Id>, d: Drawn)
    requires WellFormed(t) && id in t && j < |t[id].children| && Contributes(t, id, j, chain, d)
    ensures exists way :: ComesBy(t, id, chain, way, d)
    decreases t[id].level, 0
  {
    var c := t[id].children[j];
    ItemsComeBy(t, c, chain + [c], d);
    var rest :| ComesBy(t, c, chain + [c], rest, d);
    var way := [c] + rest;
    assert way[1..] == rest && chain + way == chain + [c] + rest;
    assert ShowsChild(t[id], c);
    assert ComesBy(t, id, chain, way, d);
  }

  lemma {:induction false} ItemByChild(t: Tree, id: Id, chain: seq<Id>, way: seq<Id>, d: Drawn)
    requires WellFormed(t) && id in t && ComesBy(t, id, chain, way, d) && way != []
    ensures exists j: nat | j < |t[id].children| :: Contributes(t, id, j, chain, d)
    decreases t[id].level, 0
  {
    var j: nat :| j < |t[id].children| && t[id].children[j] == way[0] && ShownAt(t[id], j);
    var c := t[id].children[j];
    assert chain + way == chain + [c] + way[1..];
    assert ComesBy(t, c, chain + [c], way[1..], d);
    ItemsComeBy(t, c, chain + [c], d);
    assert Contributes(t, id, j, chain, d);
  }
}
