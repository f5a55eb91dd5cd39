/**
 Paint ranges: recording throws when it meets an object whose paint_child_range() is invalid
 (src/rendering.cpp, record_boundary), and only then.  Which trees can be painted is thus a
 property of the objects that painting reaches.
 */
module PaintRanges {
  import opened Layers
  import opened RenderTree

  /** A full paint of `id` meets no invalid range. */
  ghost predicate Paintable(t: Tree, id: Id)
    requires WellFormed(t) && id in t
    decreases t[id].level, |Painted(t[id])| + 1
  {
    RangeOk(t[id]) && KidsPaintable(t, id, |Painted(t[id])|)
  }

  ghost predicate KidsPaintable(t: Tree, id: Id, k: nat)
    requires WellFormed(t) && id in t && k <= |Painted(t[id])|
    decreases t[id].level, k
  {
    k == 0 || (KidsPaintable(t, id, k - 1) && Paintable(t, Painted(t[id])[k - 1]))
  }

  /** Recording the region of `id` meets none; what lies below nested boundaries does not matter. */
  ghost predicate Recordable(t: Tree, id: Id)
    requires WellFormed(t) && id in t
    decreases t[id].level, |Painted(t[id])| + 1
  {
    RangeOk(t[id]) && KidsRecordable(t, id, |Painted(t[id])|)
  }

  ghost predicate KidsRecordable(t: Tree, id: Id, k: nat)
    requires WellFormed(t) && id in t && k <= |Painted(t[id])|
    decreases t[id].level, k
  {
    if k == 0 then true
    else
      var c := Painted(t[id])[k - 1];
      KidsRecordable(t, id, k - 1) && (t[c].boundary || Recordable(t, c))
  }

  /** `x` is drawn by a full paint of `a`: painted ranges lead from `a` to it. */
  ghost predicate Shown(t: Tree, a: Id, x: Id)
    requires WellFormed(t) && a in t
    decreases t[a].level, |Painted(t[a])| + 1
  {
    x == a || ShownByKids(t, a, |Painted(t[a])|, x)
  }

  ghost predicate ShownByKids(t: Tree, a: Id, k: nat, x: Id)
    requires WellFormed(t) && a in t && k <= |Painted(t[a])|
    decreases t[a].level, k
  {
    k > 0 && (ShownByKids(t, a, k - 1, x) || Shown(t, Painted(t[a])[k - 1], x))
  }

  /** An invalid range on an object that is not shown does no harm, and one on a shown object does. */
  lemma PaintableIffShownOk(t: Tree, id: Id)
    requires WellFormed(t) && id in t
    ensures Paintable(t, id) <==> forall x | Shown(t, id, x) :: x in t && RangeOk(t[x])
  {
    if Paintable(t, id) {
      forall x | Shown(t, id, x) ensures x in t && RangeOk(t[x]) { ShownOk(t, id, x); }
    } else {
      var x := Culprit(t, id);
    }
  }

  lemma {:induction false} ShownOk(t: Tree, id: Id, x: Id)
    requires WellFormed(t) && id in t && Paintable(t, id) && Shown(t, id, x)
    ensures x in t && RangeOk(t[x])
    decreases t[id].level, |Painted(t[id])| + 1
  {
    if x != id { ShownByKidsOk(t, id, |Painted(t[id])|, x); }
  }

  lemma {:induction false} ShownByKidsOk(t: Tree, id: Id, k: nat, x: Id)
    requires WellFormed(t) && id in t && k <= |Painted(t[id])| && KidsPaintable(t, id, k) && ShownByKids(t, id, k, x)
    ensures x in t && RangeOk(t[x])
    decreases t[id].level, k
  {
    if ShownByKids(t, id, k - 1, x) {
      ShownByKidsOk(t, id, k - 1, x);
    } else {
      ShownOk(t, Painted(t[id])[k - 1], x);
    }
  }

  lemma {:induction false} Culprit(t: Tree, id: Id) returns (x: Id)
    requires WellFormed(t) && id in t && !Paintable(t, id)
    ensures Shown(t, id, x) && x in t && !RangeOk(t[x])
    decreases t[id].level, |Painted(t[id])| + 1
  {
    x := id;
    if RangeOk(t[id]) { x := CulpritKid(t, id, |Painted(t[id])|); }
  }

  lemma {:induction false} CulpritKid(t: Tree, id: Id, k: nat) returns (x: Id)
    requires WellFormed(t) && id in t && k <= |Painted(t[id])| && !KidsPaintable(t, id, k)
    ensures ShownByKids(t, id, k, x) && x in t && !RangeOk(t[x])
    decreases t[id].level, k
  {
    if KidsPaintable(t, id, k - 1) {
      x := Culprit(t, Painted(t[id])[k - 1]);
    } else {
      x := CulpritKid(t, id, k - 1);
    }
  }

  lemma {:induction false} PaintableRecordable(t: Tree, id: Id)
    requires WellFormed(t) && id in t && Paintable(t, id)
    ensures Recordable(t, id)
    decreases t[id].level, |Painted(t[id])| + 1
  {
    KidsPaintableRecordable(t, id, |Painted(t[id])|);
  }

  lemma {:induction false} KidsPaintableRecordable(t: Tree, id: Id, k: nat)
    requires WellFormed(t) && id in t && k <= |Painted(t[id])| && KidsPaintable(t, id, k)
    ensures KidsRecordable(t, id, k)
    decreases t[id].level, k
  {
    if k > 0 {
      KidsPaintableRecordable(t, id, k - 1);
      PaintableRecordable(t, Painted(t[id])[k - 1]);
    }
  }

  /** One kid that cannot be painted spoils its parent. */
  lemma {:induction false} FirstKidsPaintable(t: Tree, id: Id, j: nat, k: nat)
    requires WellFormed(t) && id in t && j <= k <= |Painted(t[id])| && KidsPaintable(t, id, k)
    ensures KidsPaintable(t, id, j)
    decreases k
  {
    if j < k { FirstKidsPaintable(t, id, j, k - 1); }
  }

  /** Every nested boundary in a recording can be painted. */
  ghost predicate SlotsPaintable(t: Tree, atoms: seq<Atom>)
    requires WellFormed(t)
  {
    forall a | a in atoms && a.Slot? :: a.id in t && Paintable(t, a.id)
  }

  /** What a recording settles and what its slots leave open make up a full paint. */
  lemma {:induction false} PaintableBySlots(t: Tree, id: Id, at: Offset)
    requires WellFormed(t) && id in t && Recordable(t, id)
    ensures Paintable(t, id) <==> SlotsPaintable(t, Record(t, id, at))
    decreases t[id].level, |Painted(t[id])| + 1
  {
    var n := t[id];
    var kids := RecordKids(t, id, |Painted(n)|, at);
    KidsPaintableBySlots(t, id, |Painted(n)|, at);
    SlotsTogether(t, RecordBegin(n, at) + Draws(ShiftAll(n.content, at)) + kids, RecordEnd(n));
    SlotsTogether(t, RecordBegin(n, at) + Draws(ShiftAll(n.content, at)), kids);
  }

  lemma {:induction false} KidsPaintableBySlots(t: Tree, id: Id, k: nat, at: Offset)
    requires WellFormed(t) && id in t && k <= |Painted(t[id])| && KidsRecordable(t, id, k)
    ensures KidsPaintable(t, id, k) <==> SlotsPaintable(t, RecordKids(t, id, k, at))
    decreases t[id].level, k
  {
    if k > 0 {
      KidsPaintableBySlots(t, id, k - 1, at);
      KidPaintableBySlots(t, id, k - 1, at);
      SlotsTogether(t, RecordKids(t, id, k - 1, at), RecordKid(t, id, k - 1, at));
    }
  }

  lemma {:induction false} KidPaintableBySlots(t: Tree, id: Id, k: nat, at: Offset)
    requires WellFormed(t) && id in t && k < |Painted(t[id])|
    requires var c := Painted(t[id])[k]; t[c].boundary || Recordable(t, c)
    ensures Paintable(t, Painted(t[id])[k]) <==> SlotsPaintable(t, RecordKid(t, id, k, at))
    decreases t[id].level, k
  {
    var c := Painted(t[id])[k];
    var place := Plus(at, t[c].offset);
    if t[c].boundary {
      assert Slot(c, place) in RecordKid(t, id, k, at);
    } else {
      PaintableBySlots(t, c, place);
    }
  }

  lemma SlotsTogether(t: Tree, a: seq<Atom>, b: seq<Atom>)
    requires WellFormed(t)
    ensures SlotsPaintable(t, a + b) <==> SlotsPaintable(t, a) && SlotsPaintable(t, b)
  {
    assert forall x | x in a :: x in a + b;
    assert forall x | x in b :: x in a + b;
  }

  /** Composing stops at the first chunk whose slot cannot be painted, and only then. */
  lemma SlotsSoFar(t: Tree, list: seq<Chunk>, i: nat)
    requires WellFormed(t) && i < |list|
    ensures SlotsPaintable(t, AtomsOf(list[..i + 1])) <==>
            SlotsPaintable(t, AtomsOf(list[..i])) && SlotsPaintable(t, ChunkAtoms(list[i]))
    ensures SlotsPaintable(t, AtomsOf(list)) ==> SlotsPaintable(t, AtomsOf(list[..i + 1]))
  {
    SplitAtoms(list, i);
    SlotsTogether(t, AtomsOf(list[..i]), ChunkAtoms(list[i]));
    SlotsTogether(t, AtomsOf(list[..i + 1]), AtomsOf(list[i + 1..]));
  }

  // ---------------------------------------------------------------- locality of edits

  lemma {:induction false} PaintableLocal(old_: Tree, t: Tree, x: Id, id: Id)
    requires WellFormed(old_) && WellFormed(t) && EditedAt(old_, t, x)
    requires id in t && !Contains(t, id, x)
    ensures id in old_ && (Paintable(old_, id) <==> Paintable(t, id))
    decreases t[id].level, |Painted(t[id])| + 1
  {
    KidsPaintableLocal(old_, t, x, id, |Painted(t[id])|);
  }

  lemma {:induction false} KidsPaintableLocal(old_: Tree, t: Tree, x: Id, id: Id, k: nat)
    requires WellFormed(old_) && WellFormed(t) && EditedAt(old_, t, x)
    requires id in t && !Contains(t, id, x) && k <= |Painted(t[id])|
    ensures id in old_ && Painted(old_[id]) == Painted(t[id]) && RangeOk(old_[id]) == RangeOk(t[id])
    ensures KidsPaintable(old_, id, k) <==> KidsPaintable(t, id, k)
    decreases t[id].level, k
  {
    if k > 0 {
      var c := Painted(t[id])[k - 1];
      assert c in t[id].children;
      assert c != x by { assert Contains(t, c, c); }
      KidsPaintableLocal(old_, t, x, id, k - 1);
      PaintableLocal(old_, t, x, c);
    }
  }

  lemma {:induction false} RecordableLocal(old_: Tree, t: Tree, x: Id, id: Id)
    requires WellFormed(old_) && WellFormed(t) && EditedAt(old_, t, x)
    requires id in t && !InRegion(t, id, x)
    ensures id in old_ && (Recordable(old_, id) <==> Recordable(t, id))
    decreases t[id].level, |Painted(t[id])| + 1
  {
    KidsRecordableLocal(old_, t, x, id, |Painted(t[id])|);
  }

  lemma {:induction false} KidsRecordableLocal(old_: Tree, t: Tree, x: Id, id: Id, k: nat)
    requires WellFormed(old_) && WellFormed(t) && EditedAt(old_, t, x)
    requires id in t && !InRegion(t, id, x) && k <= |Painted(t[id])|
    ensures id in old_ && Painted(old_[id]) == Painted(t[id]) && RangeOk(old_[id]) == RangeOk(t[id])
    ensures KidsRecordable(old_, id, k) <==> KidsRecordable(t, id, k)
    decreases t[id].level, k
  {
    if k > 0 {
      var c := Painted(t[id])[k - 1];
      assert c in t[id].children;
      KidsRecordableLocal(old_, t, x, id, k - 1);
      assert c in old_[id].children;
      if !t[c].boundary {
        assert c != x by { assert InRegion(t, c, c); }
        RecordableLocal(old_, t, x, c);
      }
    }
  }
}
