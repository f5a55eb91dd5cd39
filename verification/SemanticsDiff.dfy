/**
 The change batch between two flattenings, and what an adapter sees while it applies the
 batch one change at a time (src/rendering.cpp, SemanticsDiffer::update).
 */
module SemanticsDiff {
  import opened Common
  import opened Semantics

  datatype Change = Added(entry: Entry) | Updated(entry: Entry) | Removed(entry: Entry)

  /** The retained model of an adapter. */
  type Model = map<nat, Entry>

  function MapOf(s: seq<Entry>): Model {
    if s == [] then map[]
    else MapOf(s[..|s| - 1])[s[|s| - 1].id := s[|s| - 1]]
  }

  function AddsTo(old_: Model, next: seq<Entry>, i: nat): seq<Change>
    requires i <= |next|
  {
    if i == 0 then []
    else AddsTo(old_, next, i - 1) + if next[i - 1].id !in old_ then [Added(next[i - 1])] else []
  }

  function UpdatesTo(old_: Model, next: seq<Entry>, k: nat): seq<Change>
    requires k <= |next|
  {
    if k == 0 then []
    else
      var e := next[k - 1];
      UpdatesTo(old_, next, k - 1) + if e.id in old_ && old_[e.id] != e then [Updated(e)] else []
  }

  /** Removals run through the old preorder backwards, so children go before their parents. */
  function RemovesTo(old_: seq<Entry>, next: Model, r: nat): seq<Change>
    requires r <= |old_|
  {
    if r == 0 then []
    else RemovesTo(old_, next, r - 1) + if old_[|old_| - r].id !in next then [Removed(old_[|old_| - r])] else []
  }

  function Diff(old_: seq<Entry>, next: seq<Entry>): seq<Change> {
    AddsTo(MapOf(old_), next, |next|) + UpdatesTo(MapOf(old_), next, |next|) + RemovesTo(old_, MapOf(next), |old_|)
  }

  /** One change as an adapter takes it: adding a present id, or touching a missing one, is an error. */
  function ApplyOne(m: Model, c: Change): Option<Model> {
    match c
    case Added(e) => if e.id in m then None else Some(m[e.id := e])
    case Updated(e) => if e.id in m then Some(m[e.id := e]) else None
    case Removed(e) => if e.id in m then Some(m - {e.id}) else None
  }

  function ApplyAll(m: Model, cs: seq<Change>): Option<Model> {
    if cs == [] then Some(m)
    else
      var before := ApplyAll(m, cs[..|cs| - 1]);
      if before.None? then None else ApplyOne(before.value, cs[|cs| - 1])
  }

  lemma {:induction false} ApplyConcat(m: Model, a: seq<Change>, b: seq<Change>)
    ensures ApplyAll(m, a + b) == if ApplyAll(m, a).None? then None else ApplyAll(ApplyAll(m, a).value, b)
  {
    if b == [] {
      assert a + b == a;
    } else {
      ApplyConcat(m, a, b[..|b| - 1]);
      assert (a + b)[..|a + b| - 1] == a + b[..|b| - 1];
    }
  }

  // ---------------------------------------------------------------- forests

  /** Climbing at most `d` parents from `id` reaches a root, through present nodes only. */
  predicate RootWithin(m: Model, id: nat, d: nat)
    decreases d
  {
    id in m && (m[id].parent.None? || (d > 0 && RootWithin(m, m[id].parent.value, d - 1)))
  }

  /** Every parent is present and no parent chain runs in a circle. */
  ghost predicate Forest(m: Model) {
    forall id | id in m :: exists d: nat :: RootWithin(m, id, d)
  }

  lemma {:induction false} RankedRoot(m: Model, rank: map<nat, nat>, id: nat, d: nat)
    requires m.Keys <= rank.Keys && id in m && rank[id] <= d
    requires forall x | x in m && m[x].parent.Some? :: m[x].parent.value in m && rank[m[x].parent.value] < rank[x]
    ensures RootWithin(m, id, d)
    decreases d
  {
    if m[id].parent.Some? {
      RankedRoot(m, rank, m[id].parent.value, d - 1);
    }
  }

  lemma RankedForest(m: Model, rank: map<nat, nat>)
    requires m.Keys <= rank.Keys
    requires forall x | x in m && m[x].parent.Some? :: m[x].parent.value in m && rank[m[x].parent.value] < rank[x]
    ensures Forest(m)
  {
    forall id | id in m ensures exists d: nat :: RootWithin(m, id, d) {
      RankedRoot(m, rank, id, rank[id]);
    }
  }

  // ---------------------------------------------------------------- flattenings as sequences

  /** The place of an id; |s| when it does not occur. */
  function Pos(s: seq<Entry>, id: nat): (p: nat)
    ensures p <= |s|
    ensures p < |s| ==> s[p].id == id
    ensures p == |s| ==> forall j | 0 <= j < |s| :: s[j].id != id
  {
    if s == [] then 0
    else if s[|s| - 1].id == id then |s| - 1
    else
      var p := Pos(s[..|s| - 1], id);
      if p < |s| - 1 then p else |s|
  }

  ghost predicate ParentFirst(s: seq<Entry>) {
    forall i | 0 <= i < |s| && s[i].parent.Some? :: Pos(s, s[i].parent.value) < i
  }

  ghost predicate WellFlattened(s: seq<Entry>) {
    DistinctIds(s) && ParentFirst(s)
  }

  lemma {:induction false} MapOfPos(s: seq<Entry>, id: nat)
    ensures id in MapOf(s) <==> Pos(s, id) < |s|
    ensures id in MapOf(s) ==> MapOf(s)[id] == s[Pos(s, id)]
  {
    if s == [] {
    } else {
      MapOfPos(s[..|s| - 1], id);
    }
  }

  lemma PosAt(s: seq<Entry>, i: nat)
    requires DistinctIds(s) && i < |s|
    ensures Pos(s, s[i].id) == i && s[i].id in MapOf(s) && MapOf(s)[s[i].id] == s[i]
  {
    var p := Pos(s, s[i].id);
    assert p < |s|;
    assert p == i;
    MapOfPos(s, s[i].id);
  }

  // ---------------------------------------------------------------- the model halfway through a batch

  /** `id` is in the model once `i` new entries were considered for adding and `r` old ones for removing. */
  ghost predicate Present(old_: seq<Entry>, next: seq<Entry>, i: nat, r: nat, id: nat) {
    || (id in MapOf(old_) && (id in MapOf(next) || Pos(old_, id) + r < |old_|))
    || (id in MapOf(next) && Pos(next, id) < i)
  }

  ghost function Held(old_: seq<Entry>, next: seq<Entry>, k: nat, id: nat): Entry
    requires id in MapOf(old_) || id in MapOf(next)
  {
    if id in MapOf(next) && (id !in MapOf(old_) || Pos(next, id) < k) then MapOf(next)[id] else MapOf(old_)[id]
  }

  ghost function Staged(old_: seq<Entry>, next: seq<Entry>, i: nat, k: nat, r: nat): Model {
    map id | id in MapOf(old_).Keys + MapOf(next).Keys && Present(old_, next, i, r, id) :: Held(old_, next, k, id)
  }

  lemma StagedStart(old_: seq<Entry>, next: seq<Entry>)
    ensures Staged(old_, next, 0, 0, 0) == MapOf(old_)
  {
    forall id ensures id in Staged(old_, next, 0, 0, 0) <==> id in MapOf(old_) { MapOfPos(old_, id); }
  }

  lemma StagedEnd(old_: seq<Entry>, next: seq<Entry>)
    requires DistinctIds(old_)
    ensures Staged(old_, next, |next|, |next|, |old_|) == MapOf(next)
  {
    forall id ensures id in Staged(old_, next, |next|, |next|, |old_|) <==> id in MapOf(next) {
      MapOfPos(next, id);
    }
    forall id | id in MapOf(next) ensures Held(old_, next, |next|, id) == MapOf(next)[id] { MapOfPos(next, id); }
  }

  lemma PresentAdd(old_: seq<Entry>, next: seq<Entry>, i: nat, id: nat)
    requires DistinctIds(next) && i < |next|
    ensures Present(old_, next, i + 1, 0, id) <==> Present(old_, next, i, 0, id) || id == next[i].id
  {
    PosAt(next, i);
    MapOfPos(next, id);
    MapOfPos(old_, id);
  }

  lemma PresentRemove(old_: seq<Entry>, next: seq<Entry>, r: nat, id: nat)
    requires DistinctIds(old_) && r < |old_|
    ensures Present(old_, next, |next|, r + 1, id) <==>
            Present(old_, next, |next|, r, id) && (id != old_[|old_| - r - 1].id || id in MapOf(next))
  {
    PosAt(old_, |old_| - r - 1);
    MapOfPos(old_, id);
    MapOfPos(next, id);
  }

  /** At `id` the later model has what the earlier one has, and `e` when it is not known yet. */
  predicate GrownAt(before: Model, now: Model, e: Entry, known: bool, id: nat) {
    && (id in now <==> id in before || id == e.id) && (id in before ==> now[id] == before[id])
    && (id == e.id ==> (known <==> id in before) && (known || now[id] == e))
  }

  lemma GrownEverywhere(before: Model, now: Model, e: Entry, known: bool)
    requires forall id :: GrownAt(before, now, e, known, id)
    ensures if known then now == before else e.id !in before && now == before[e.id := e]
  {
    assert GrownAt(before, now, e, known, e.id);
    forall id ensures id in now <==> id in before || id == e.id { assert GrownAt(before, now, e, known, id); }
    forall id | id in before ensures now[id] == before[id] { assert GrownAt(before, now, e, known, id); }
  }

  lemma StagedAddAt(old_: seq<Entry>, next: seq<Entry>, i: nat, id: nat)
    requires DistinctIds(next) && i < |next|
    ensures GrownAt(Staged(old_, next, i, 0, 0), Staged(old_, next, i + 1, 0, 0), next[i], next[i].id in MapOf(old_),
                    id)
  {
    PosAt(next, i);
    PresentAdd(old_, next, i, id);
    MapOfPos(old_, id);
  }

  lemma StagedAdd(old_: seq<Entry>, next: seq<Entry>, i: nat)
    requires DistinctIds(next) && i < |next|
    ensures var e, before, now := next[i], Staged(old_, next, i, 0, 0), Staged(old_, next, i + 1, 0, 0);
            if e.id in MapOf(old_) then now == before else e.id !in before && now == before[e.id := e]
  {
    var e, before, now := next[i], Staged(old_, next, i, 0, 0), Staged(old_, next, i + 1, 0, 0);
    var known := e.id in MapOf(old_);
    forall id ensures GrownAt(before, now, e, known, id) { StagedAddAt(old_, next, i, id); }
    GrownEverywhere(before, now, e, known);
  }

  lemma StagedUpdate(old_: seq<Entry>, next: seq<Entry>, k: nat)
    requires DistinctIds(next) && k < |next|
    ensures var e, before, now := next[k], Staged(old_, next, |next|, k, 0), Staged(old_, next, |next|, k + 1, 0);
            if e.id in MapOf(old_) && MapOf(old_)[e.id] != e then e.id in before && now == before[e.id := e]
               else now == before
  {
    var e := next[k];
    PosAt(next, k);
    forall id | id in MapOf(old_) || id in MapOf(next)
      ensures Held(old_, next, k + 1, id) == if id == e.id then e else Held(old_, next, k, id)
    {
      MapOfPos(next, id);
    }
  }

  /** One more removal, seen from one id. */
  lemma StagedRemoveAt(old_: seq<Entry>, next: seq<Entry>, r: nat, id: nat)
    requires DistinctIds(old_) && r < |old_|
    ensures var before, now := Staged(old_, next, |next|, |next|, r), Staged(old_, next, |next|, |next|, r + 1);
            SameBut(before, now, old_[|old_| - r - 1].id, old_[|old_| - r - 1].id in MapOf(next), id)
  {
    PresentRemove(old_, next, r, id);
  }

  /** At `id` the two models agree, except that `x` is gone unless it is kept. */
  predicate SameBut(before: Model, now: Model, x: nat, kept: bool, id: nat) {
    (id in now <==> id in before && (id != x || kept)) && (id in now ==> now[id] == before[id])
  }

  lemma SameButEverywhere(before: Model, now: Model, x: nat, kept: bool)
    requires forall id :: SameBut(before, now, x, kept, id)
    ensures if kept then now == before else now == before - {x}
  {
    forall id ensures id in now <==> id in before && (id != x || kept) { assert SameBut(before, now, x, kept, id); }
    forall id | id in now ensures now[id] == before[id] { assert SameBut(before, now, x, kept, id); }
  }

  /** The entry that is next to be removed is still there. */
  lemma StagedHolds(old_: seq<Entry>, next: seq<Entry>, r: nat)
    requires DistinctIds(old_) && r < |old_|
    ensures old_[|old_| - r - 1].id in Staged(old_, next, |next|, |next|, r)
  {
    PosAt(old_, |old_| - r - 1);
    assert Present(old_, next, |next|, r, old_[|old_| - r - 1].id);
  }

  lemma StagedRemove(old_: seq<Entry>, next: seq<Entry>, r: nat)
    requires DistinctIds(old_) && r < |old_|
    ensures var e, before, now := old_[|old_| - r - 1], Staged(old_, next, |next|, |next|, r),
            Staged(old_, next, |next|, |next|, r + 1);
            if e.id in MapOf(next) then now == before else e.id in before && now == before - {e.id}
  {
    var e, before, now := old_[|old_| - r - 1], Staged(old_, next, |next|, |next|, r),
        Staged(old_, next, |next|, |next|, r + 1);
    StagedHolds(old_, next, r);
    var kept := e.id in MapOf(next);
    forall id ensures SameBut(before, now, e.id, kept, id) { StagedRemoveAt(old_, next, r, id); }
    SameButEverywhere(before, now, e.id, kept);
  }

  lemma ApplySnoc(m: Model, cs: seq<Change>, c: Change)
    ensures ApplyAll(m, cs + [c]) == if ApplyAll(m, cs).None? then None else ApplyOne(ApplyAll(m, cs).value, c)
    ensures cs + [] == cs
  {
    assert (cs + [c])[..|cs|] == cs;
  }

  ghost predicate AddsReached(old_: seq<Entry>, next: seq<Entry>, i: nat)
    requires i <= |next|
  {
    ApplyAll(MapOf(old_), AddsTo(MapOf(old_), next, i)) == Some(Staged(old_, next, i, 0, 0))
  }

  lemma {:induction false} AddsReach(old_: seq<Entry>, next: seq<Entry>, i: nat)
    requires DistinctIds(next) && i <= |next|
    ensures AddsReached(old_, next, i)
  {
    if i == 0 {
      StagedStart(old_, next);
    } else {
      AddsReach(old_, next, i - 1);
      AddsStep(old_, next, i);
    }
  }

  lemma AddsStep(old_: seq<Entry>, next: seq<Entry>, i: nat)
    requires DistinctIds(next) && 0 < i <= |next| && AddsReached(old_, next, i - 1)
    ensures AddsReached(old_, next, i)
  {
    StagedAdd(old_, next, i - 1);
    ApplySnoc(MapOf(old_), AddsTo(MapOf(old_), next, i - 1), Added(next[i - 1]));
  }

  lemma {:induction false} UpdatesReach(old_: seq<Entry>, next: seq<Entry>, k: nat)
    requires DistinctIds(next) && k <= |next|
    ensures ApplyAll(Staged(old_, next, |next|, 0, 0), UpdatesTo(MapOf(old_), next, k))
            == Some(Staged(old_, next, |next|, k, 0))
  {
    if k == 0 {
    } else {
      UpdatesReach(old_, next, k - 1);
      StagedUpdate(old_, next, k - 1);
      ApplySnoc(Staged(old_, next, |next|, 0, 0), UpdatesTo(MapOf(old_), next, k - 1), Updated(next[k - 1]));
    }
  }

  ghost predicate RemovesReached(old_: seq<Entry>, next: seq<Entry>, r: nat)
    requires r <= |old_|
  {
    ApplyAll(Staged(old_, next, |next|, |next|, 0), RemovesTo(old_, MapOf(next), r)) ==
    Some(Staged(old_, next, |next|, |next|, r))
  }

  lemma {:induction false} RemovesReach(old_: seq<Entry>, next: seq<Entry>, r: nat)
    requires DistinctIds(old_) && r <= |old_|
    ensures RemovesReached(old_, next, r)
    decreases r, 1
  {
    if r > 0 { RemovesStep(old_, next, r); }
  }

  lemma {:induction false} RemovesStep(old_: seq<Entry>, next: seq<Entry>, r: nat)
    requires DistinctIds(old_) && 0 < r <= |old_|
    ensures RemovesReached(old_, next, r)
    decreases r, 0
  {
    RemovesReach(old_, next, r - 1);
    StagedRemove(old_, next, r - 1);
    ApplySnoc(Staged(old_, next, |next|, |next|, 0), RemovesTo(old_, MapOf(next), r - 1), Removed(old_[|old_| - r]));
  }

  /** Applying the whole batch never meets an error and gives exactly the new model. */
  lemma DiffReaches(old_: seq<Entry>, next: seq<Entry>)
    requires DistinctIds(old_) && DistinctIds(next)
    ensures ApplyAll(MapOf(old_), Diff(old_, next)) == Some(MapOf(next))
  {
    var o, n := MapOf(old_), MapOf(next);
    var a, u, r := AddsTo(o, next, |next|), UpdatesTo(o, next, |next|), RemovesTo(old_, n, |old_|);
    AddsReach(old_, next, |next|);
    UpdatesReach(old_, next, |next|);
    RemovesReach(old_, next, |old_|);
    ApplyConcat(o, a, u);
    ApplyConcat(o, a + u, r);
    StagedEnd(old_, next);
  }

  // ---------------------------------------------------------------- every intermediate model is a forest

  /** The stages a batch passes through: all adds, then all updates, then the removals. */
  predicate StageOk(old_: seq<Entry>, next: seq<Entry>, i: nat, k: nat, r: nat) {
    && i <= |next| && k <= |next| && r <= |old_|
    && (k > 0 || r > 0 ==> i == |next|) && (r > 0 ==> k == |next|)
  }

  /**
   A numbering that falls along every parent link of a half-updated model: first the part of
   the new preorder that is already in place, then the untouched old nodes in old preorder,
   then the added nodes that are still ahead of the updates.
   */
  ghost function Rank(old_: seq<Entry>, next: seq<Entry>, k: nat, id: nat): nat {
    if id in MapOf(next) && Pos(next, id) < k then Pos(next, id)
    else if id in MapOf(old_) then |next| + Pos(old_, id)
    else |next| + |old_| + Pos(next, id)
  }

  lemma StagedParent(old_: seq<Entry>, next: seq<Entry>, i: nat, k: nat, r: nat, id: nat)
    requires WellFlattened(old_) && WellFlattened(next) && StageOk(old_, next, i, k, r)
    requires id in Staged(old_, next, i, k, r) && Staged(old_, next, i, k, r)[id].parent.Some?
    ensures var p := Staged(old_, next, i, k, r)[id].parent.value;
            p in Staged(old_, next, i, k, r) && Rank(old_, next, k, p) < Rank(old_, next, k, id)
  {
    var p := Staged(old_, next, i, k, r)[id].parent.value;
    MapOfPos(old_, id);
    MapOfPos(next, id);
    MapOfPos(old_, p);
    MapOfPos(next, p);
    if id in MapOf(next) && (id !in MapOf(old_) || Pos(next, id) < k) {
      assert Pos(next, p) < Pos(next, id);
    } else {
      assert Pos(old_, p) < Pos(old_, id);
    }
  }

  lemma StagedForest(old_: seq<Entry>, next: seq<Entry>, i: nat, k: nat, r: nat)
    requires WellFlattened(old_) && WellFlattened(next) && StageOk(old_, next, i, k, r)
    ensures Forest(Staged(old_, next, i, k, r))
  {
    var m := Staged(old_, next, i, k, r);
    var rank := map id | id in m :: Rank(old_, next, k, id);
    forall x | x in m && m[x].parent.Some? ensures m[x].parent.value in m && rank[m[x].parent.value] < rank[x] {
      StagedParent(old_, next, i, k, r, x);
    }
    RankedForest(m, rank);
  }

  lemma {:induction false} AddsPrefix(o: Model, next: seq<Entry>, top: nat, n: nat) returns (i: nat)
    requires top <= |next| && n <= |AddsTo(o, next, top)|
    ensures i <= top && AddsTo(o, next, i) == AddsTo(o, next, top)[..n]
  {
    if n == |AddsTo(o, next, top)| {
      i := top;
    } else {
      i := AddsPrefix(o, next, top - 1, n);
      assert AddsTo(o, next, top)[..n] == AddsTo(o, next, top - 1)[..n];
    }
  }

  lemma {:induction false} UpdatesPrefix(o: Model, next: seq<Entry>, top: nat, n: nat) returns (k: nat)
    requires top <= |next| && n <= |UpdatesTo(o, next, top)|
    ensures k <= top && UpdatesTo(o, next, k) == UpdatesTo(o, next, top)[..n]
  {
    if n == |UpdatesTo(o, next, top)| {
      k := top;
    } else {
      k := UpdatesPrefix(o, next, top - 1, n);
      assert UpdatesTo(o, next, top)[..n] == UpdatesTo(o, next, top - 1)[..n];
    }
  }

  lemma {:induction false} RemovesPrefix(old_: seq<Entry>, m: Model, top: nat, n: nat) returns (r: nat)
    requires top <= |old_| && n <= |RemovesTo(old_, m, top)|
    ensures r <= top && RemovesTo(old_, m, r) == RemovesTo(old_, m, top)[..n]
  {
    if n == |RemovesTo(old_, m, top)| {
      r := top;
    } else {
      r := RemovesPrefix(old_, m, top - 1, n);
      assert RemovesTo(old_, m, top)[..n] == RemovesTo(old_, m, top - 1)[..n];
    }
  }

  lemma CutThree<T>(a: seq<T>, b: seq<T>, c: seq<T>, n: nat)
    requires n <= |a + b + c|
    ensures (a + b + c)[..n] ==
            if n <= |a| then a[..n] else if n <= |a| + |b| then a + b[..n - |a|] else a + b + c[..n - |a| - |b|]
  {
  }

  lemma AddsStage(old_: seq<Entry>, next: seq<Entry>, n: nat) returns (i: nat)
    requires DistinctIds(old_) && DistinctIds(next) && n <= |AddsTo(MapOf(old_), next, |next|)|
    ensures StageOk(old_, next, i, 0, 0)
    ensures ApplyAll(MapOf(old_), AddsTo(MapOf(old_), next, |next|)[..n]) == Some(Staged(old_, next, i, 0, 0))
  {
    i := AddsPrefix(MapOf(old_), next, |next|, n);
    AddsReach(old_, next, i);
  }

  lemma UpdatesStage(old_: seq<Entry>, next: seq<Entry>, n: nat) returns (k: nat)
    requires DistinctIds(old_) && DistinctIds(next) && n <= |UpdatesTo(MapOf(old_), next, |next|)|
    ensures StageOk(old_, next, |next|, k, 0)
    ensures ApplyAll(MapOf(old_), AddsTo(MapOf(old_), next, |next|) + UpdatesTo(MapOf(old_), next, |next|)[..n])
            == Some(Staged(old_, next, |next|, k, 0))
  {
    var o := MapOf(old_);
    k := UpdatesPrefix(o, next, |next|, n);
    AddsReach(old_, next, |next|);
    ApplyConcat(o, AddsTo(o, next, |next|), UpdatesTo(o, next, |next|)[..n]);
    UpdatesReach(old_, next, k);
  }

  lemma RemovesStage(old_: seq<Entry>, next: seq<Entry>, n: nat) returns (r: nat)
    requires DistinctIds(old_) && DistinctIds(next) && n <= |RemovesTo(old_, MapOf(next), |old_|)|
    ensures StageOk(old_, next, |next|, |next|, r)
    ensures ApplyAll(MapOf(old_), AddsTo(MapOf(old_), next, |next|) + UpdatesTo(MapOf(old_), next, |next|)
                                  + RemovesTo(old_, MapOf(next), |old_|)[..n])
            == Some(Staged(old_, next, |next|, |next|, r))
  {
    var o, m := MapOf(old_), MapOf(next);
    var a, u := AddsTo(o, next, |next|), UpdatesTo(o, next, |next|);
    r := RemovesPrefix(old_, m, |old_|, n);
    AddsReach(old_, next, |next|);
    UpdatesReach(old_, next, |next|);
    ApplyConcat(o, a, u);
    ApplyConcat(o, a + u, RemovesTo(old_, m, |old_|)[..n]);
    RemovesReach(old_, next, r);
  }

  /** Every prefix of a batch applies without error and leads to one of the stages. */
  lemma PrefixStage(old_: seq<Entry>, next: seq<Entry>, n: nat) returns (i: nat, k: nat, r: nat)
    requires DistinctIds(old_) && DistinctIds(next) && n <= |Diff(old_, next)|
    ensures StageOk(old_, next, i, k, r)
    ensures ApplyAll(MapOf(old_), Diff(old_, next)[..n]) == Some(Staged(old_, next, i, k, r))
  {
    var o, m := MapOf(old_), MapOf(next);
    var a, u, d := AddsTo(o, next, |next|), UpdatesTo(o, next, |next|), RemovesTo(old_, m, |old_|);
    CutThree(a, u, d, n);
    i, k, r := 0, 0, 0;
    if n <= |a| {
      i := AddsStage(old_, next, n);
    } else if n <= |a| + |u| {
      i := |next|;
      k := UpdatesStage(old_, next, n - |a|);
    } else {
      i, k := |next|, |next|;
      r := RemovesStage(old_, next, n - |a| - |u|);
    }
  }

  /** Every prefix of a batch leaves a forest, whatever moved where. */
  lemma PrefixForest(old_: seq<Entry>, next: seq<Entry>, n: nat)
    requires WellFlattened(old_) && WellFlattened(next) && n <= |Diff(old_, next)|
    ensures ApplyAll(MapOf(old_), Diff(old_, next)[..n]).Some?
    ensures Forest(ApplyAll(MapOf(old_), Diff(old_, next)[..n]).value)
  {
    var i, k, r := PrefixStage(old_, next, n);
    StagedForest(old_, next, i, k, r);
  }
}
