/**
 Frames of a lazy list (src/ui.cpp): lay out, realize the requested range, lay out again.
 */
module LazyFrame {
  import opened Common
  import opened FixedExtentRanges
  import opened FixedExtentList
  import opened LazyRealization

  /** The sliver's children are the elements of its mounted range, in order. */
  predicate Mounted(list: RenderSliverFixedExtentList, element: LazyElement)
    reads list, element
  {
    && |list.children| == list.mountedCount && list.firstMounted + list.mountedCount <= |element.keys|
    && Carries(element.children, element.keys[list.firstMounted..list.firstMounted + list.mountedCount])
  }

  /** The sliver shows a model of this many items, under this revision. */
  ghost predicate Serves(list: RenderSliverFixedExtentList, count: nat, revision: nat)
    reads list
  {
    && list.Valid() && list.lazy && list.modelRevision == revision
    && list.logicalChildCount == count && 2 * count < SIZE_MODULUS
  }

  /** The sliver and its element show the same model, and what is mounted for it is there. */
  ghost predicate Coupled(list: RenderSliverFixedExtentList, element: LazyElement, revision: nat)
    reads list, element
  {
    && Serves(list, |element.keys|, revision) && element.Valid()
    && (list.mountedRevision == revision ==> Mounted(list, element))
  }

  /** The window these constraints open on the model is one that rounding collapsed. */
  ghost predicate Shut(list: RenderSliverFixedExtentList, count: nat, c: Constraints)
    requires Monotone(list.start)
    reads list
  {
    Collapsed(list.start, count, c.scroll, c.remaining, list.cacheExtent)
  }

  /** Realizing the cached range of these constraints takes the elements from `was` to `now`. */
  ghost predicate Reaches(start: Starts, cacheExtent: real, keys: seq<Key>, keep: set<Key>, limit: Option<nat>,
                          c: Constraints, was: Places, now: Places) {
    var first, end := FirstCached(start, |keys|, c.scroll, cacheExtent),
                      CachedEnd(start, |keys|, c.scroll, c.remaining, cacheExtent);
    first <= end <= |keys| && Realizes(was, keys[first..end], keep, limit, now)
  }

  /** The elements are what realizing the cached range of these constraints makes of `was`. */
  ghost predicate Shows(list: RenderSliverFixedExtentList, element: LazyElement, c: Constraints, was: Places)
    reads list, element
  {
    Reaches(list.start, list.cacheExtent, element.keys, element.keepAliveKeys, element.limit, c, was, element.Placed())
  }

  /** What the sliver and its element hold together. */
  datatype Scene = Scene(start: Starts, cacheExtent: real, keys: seq<Key>, keep: set<Key>, limit: Option<nat>,
                         places: Places)

  ghost function SceneOf(list: RenderSliverFixedExtentList, element: LazyElement): Scene
    reads list, element
  {
    Scene(list.start, list.cacheExtent, element.keys, element.keepAliveKeys, element.limit, element.Placed())
  }

  method SetExtents(list: RenderSliverFixedExtentList, start: Starts, cacheExtent: real) returns (ok: bool)
    requires list.Valid() && Monotone(start)
    modifies list`start, list`cacheExtent, list`needsLayout
    ensures list.Valid() && ok == (cacheExtent >= 0.0)
    ensures ok ==> list.start == start && list.cacheExtent == cacheExtent
    ensures !ok ==> list.start == old(list.start) && list.cacheExtent == old(list.cacheExtent)
                    && list.needsLayout == old(list.needsLayout)
  {
    if cacheExtent < 0.0 { return false; }
    list.SetItemExtent(start);
    ok := list.SetCacheExtent(cacheExtent);
  }

  method InstallModels(list: RenderSliverFixedExtentList, element: LazyElement, keys: seq<Key>, keep: set<Key>,
                       limit: Option<nat>, revision: nat)
    requires list.Valid() && element.Valid() && DistinctSeq(keys) && revision != list.mountedRevision
    requires |list.children| + |keys| < SIZE_MODULUS && 2 * |keys| < SIZE_MODULUS
    modifies element`keys, element`keepAliveKeys, element`limit, element`keptAlive, element`unmounted
    modifies list`lazy, list`logicalChildCount, list`modelRevision, list`requested, list`needsLayout
    ensures Coupled(list, element, revision)
    ensures element.keys == keys && element.keepAliveKeys == keep && element.limit == limit
    ensures element.Placed() == Adopted(old(element.Placed()), keep, limit)
  {
    element.InstallModel(keys, keep, limit);
    list.SetLazyModel(|keys|, revision);
  }

  /** The lazy update_view: extents first, then the element and the sliver take the new model together. */
  method ShowModel(list: RenderSliverFixedExtentList, element: LazyElement, start: Starts, cacheExtent: real,
                   keys: seq<Key>, keep: set<Key>, limit: Option<nat>, revision: nat)
    returns (ok: bool)
    requires list.Valid() && element.Valid() && Monotone(start) && DistinctSeq(keys) && revision != list.mountedRevision
    requires |list.children| + |keys| < SIZE_MODULUS && 2 * |keys| < SIZE_MODULUS
    modifies element`keys, element`keepAliveKeys, element`limit, element`keptAlive, element`unmounted
    modifies list`start, list`cacheExtent, list`lazy, list`logicalChildCount, list`modelRevision, list`requested,
             list`needsLayout
    ensures ok == (cacheExtent >= 0.0)
    ensures !ok ==> unchanged(list) && unchanged(element)
    ensures ok ==> Coupled(list, element, revision)
    ensures ok ==> SceneOf(list, element) ==
                   Scene(start, cacheExtent, keys, keep, limit, Adopted(old(element.Placed()), keep, limit))
  {
    ok := SetExtents(list, start, cacheExtent);
    if ok { InstallModels(list, element, keys, keep, limit, revision); }
  }

  /** A layout that settles at once shows what is mounted, and nothing moves. */
  lemma StillShown(list: RenderSliverFixedExtentList, element: LazyElement, c: Constraints)
    requires list.Sizes() && list.lazy && list.logicalChildCount == |element.keys| && list.Settles(c)
    requires element.Valid() && Mounted(list, element)
    ensures Shows(list, element, c, element.Placed())
  {
    var first, end := FirstCached(list.start, |element.keys|, c.scroll, list.cacheExtent),
                      CachedEnd(list.start, |element.keys|, c.scroll, c.remaining, list.cacheExtent);
    assert first == list.firstMounted && end == first + list.mountedCount;
    DistinctSlice(element.keys, first, end);
    NothingMoves(element.Placed(), element.keys[first..end], element.keepAliveKeys, element.limit);
  }

  /** Mount what the element has just realized, and lay out again. */
  method MountRealized(list: RenderSliverFixedExtentList, element: LazyElement, revision: nat, c: Constraints,
                       range: ChildRange)
    requires Serves(list, |element.keys|, revision) && element.Valid() && ConstraintsValid(c)
    requires !list.needsLayout && list.constraints == Some(c) && list.requested == Some(range)
    requires range.first == list.CacheFirst(c) && range.end == list.CacheEnd(c)
             && range.first <= range.end <= |element.keys|
    requires Carries(element.children, element.keys[range.first..range.end])
    modifies list`children, list`firstMounted, list`mountedCount, list`mountedRevision, list`requested,
             list`needsLayout, list`constraints, list`firstVisibleIndex, list`firstVisibleChild,
             list`visibleCount, list`geometry
    ensures Coupled(list, element, revision) && list.constraints == Some(c) && !list.needsLayout
    ensures list.requested.None? && list.mountedRevision == revision
  {
    list.MountRequested(c);
  }

  method RealizeRange(element: LazyElement, first: nat, end: nat)
    requires element.Valid() && first <= end <= |element.keys|
    modifies element`children, element`keptAlive, element`nextId, element`unmounted, element`created, element`left,
             element`clock
    ensures element.Valid() && Carries(element.children, element.keys[first..end])
    ensures Realizes(old(element.Placed()), element.keys[first..end], element.keepAliveKeys, element.limit,
                     element.Placed())
  {
    var ok := element.Realize(first, end);
    ChosenCarries(element.children, element.keys[first..end], old(element.children + element.keptAlive),
                  old(element.nextId));
  }

  /** realize_lazy_children for one sliver, and the layout that follows. */
  method RealizeRequest(list: RenderSliverFixedExtentList, element: LazyElement, revision: nat, c: Constraints,
                        range: ChildRange)
    requires Coupled(list, element, revision) && ConstraintsValid(c)
    requires !list.needsLayout && list.constraints == Some(c) && list.requested == Some(range)
    requires range.first == list.CacheFirst(c) && range.end == list.CacheEnd(c)
             && range.first <= range.end <= |element.keys|
    modifies list`children, list`firstMounted, list`mountedCount, list`mountedRevision, list`requested,
             list`needsLayout, list`constraints, list`firstVisibleIndex, list`firstVisibleChild,
             list`visibleCount, list`geometry
    modifies element`children, element`keptAlive, element`nextId, element`unmounted, element`created, element`left,
             element`clock
    ensures Coupled(list, element, revision) && list.constraints == Some(c) && !list.needsLayout && list.requested.None?
    ensures list.mountedRevision == revision
    ensures Shows(list, element, c, old(element.Placed()))
  {
    RealizeRange(element, range.first, range.end);
    MountRealized(list, element, revision, c, range);
  }

  /** A range that ends before it begins is refused and changes nothing. */
  method RefuseRequest(list: RenderSliverFixedExtentList, element: LazyElement, revision: nat, range: ChildRange)
    requires Coupled(list, element, revision) && range.end < range.first
    modifies element`children, element`keptAlive, element`nextId, element`unmounted, element`created, element`left,
             element`clock
    ensures Coupled(list, element, revision) && element.Placed() == old(element.Placed())
  {
    var ok := element.Realize(range.first, range.end);
  }

  /** One realization round for a requested range. */
  method AnswerRequest(list: RenderSliverFixedExtentList, element: LazyElement, revision: nat, c: Constraints,
                       range: ChildRange)
    returns (settled: bool)
    requires Coupled(list, element, revision) && ConstraintsValid(c)
    requires !list.needsLayout && list.constraints == Some(c) && list.requested == Some(range)
    requires range.first == list.CacheFirst(c) && range.end == list.CacheEnd(c) <= |element.keys|
    modifies list`children, list`firstMounted, list`mountedCount, list`mountedRevision, list`requested,
             list`needsLayout, list`constraints, list`firstVisibleIndex, list`firstVisibleChild,
             list`visibleCount, list`geometry
    modifies element`children, element`keptAlive, element`nextId, element`unmounted, element`created, element`left,
             element`clock
    ensures Coupled(list, element, revision) && list.constraints == Some(c) && !list.needsLayout
    ensures settled == (range.first <= range.end)
    ensures settled ==> list.requested.None? && list.mountedRevision == revision
    ensures settled ==> Shows(list, element, c, old(element.Placed()))
    ensures !settled ==> list.requested.Some? && element.Placed() == old(element.Placed())
    ensures !settled ==> list.mountedRevision == old(list.mountedRevision) && |list.children| == |old(list.children)|
  {
    settled := range.first <= range.end;
    if settled {
      RealizeRequest(list, element, revision, c, range);
    } else {
      RefuseRequest(list, element, revision, range);
    }
  }

  /** The layout of a frame, and the range it asks for. */
  method Lay(list: RenderSliverFixedExtentList, element: LazyElement, revision: nat, c: Constraints)
    returns (range: Option<ChildRange>)
    requires Coupled(list, element, revision) && ConstraintsValid(c)
    modifies list`constraints, list`needsLayout, list`firstVisibleIndex, list`firstVisibleChild, list`visibleCount,
             list`requested, list`geometry, list`children
    ensures Coupled(list, element, revision)
    ensures list.constraints == Some(c) && !list.needsLayout && range == list.requested
    ensures |list.children| == |old(list.children)|
    ensures range.None? ==> list.Settles(c) && !Shut(list, |element.keys|, c)
    ensures range.Some? ==>
              && range.value.first == list.CacheFirst(c) && range.value.end == list.CacheEnd(c) <= |element.keys|
              && (range.value.first <= range.value.end <==> !Shut(list, |element.keys|, c))
  {
    range := list.LayoutRequest(c);
  }

  /** A layout that asks for nothing shows what was mounted. */
  method LayShown(list: RenderSliverFixedExtentList, element: LazyElement, revision: nat, c: Constraints)
    returns (range: Option<ChildRange>)
    requires Coupled(list, element, revision) && ConstraintsValid(c)
    modifies list`constraints, list`needsLayout, list`firstVisibleIndex, list`firstVisibleChild, list`visibleCount,
             list`requested, list`geometry, list`children
    ensures Coupled(list, element, revision) && |list.children| == |old(list.children)|
    ensures list.constraints == Some(c) && !list.needsLayout && range == list.requested
    ensures range.None? ==> list.mountedRevision == revision && Shows(list, element, c, element.Placed())
    ensures range.Some? ==>
              range.value.first == list.CacheFirst(c) && range.value.end == list.CacheEnd(c) <= |element.keys|
    ensures !Shut(list, |element.keys|, c) <==> range.None? || range.value.first <= range.value.end
  {
    range := Lay(list, element, revision, c);
    if range.None? { StillShown(list, element, c); }
  }

  /**
   One realization round settles the layout, exactly unless rounding collapsed an empty window: then
   the requested range ends before it begins and is refused.
   */
  method LayoutFrame(list: RenderSliverFixedExtentList, element: LazyElement, revision: nat, c: Constraints)
    returns (settled: bool)
    requires Coupled(list, element, revision) && ConstraintsValid(c)
    modifies list`children, list`firstMounted, list`mountedCount, list`mountedRevision, list`requested,
             list`needsLayout, list`constraints, list`firstVisibleIndex, list`firstVisibleChild,
             list`visibleCount, list`geometry
    modifies element`children, element`keptAlive, element`nextId, element`unmounted, element`created, element`left,
             element`clock
    ensures Coupled(list, element, revision) && list.constraints == Some(c) && !list.needsLayout
    ensures settled <==> !Shut(list, |element.keys|, c)
    ensures settled ==> list.requested.None? && list.mountedRevision == revision
    ensures settled ==> Shows(list, element, c, old(element.Placed()))
    ensures !settled ==> list.requested.Some? && element.Placed() == old(element.Placed())
    ensures !settled ==> list.mountedRevision == old(list.mountedRevision) && |list.children| == |old(list.children)|
  {
    ghost var was := element.Placed();
    var range := LayShown(list, element, revision, c);
    assert element.Placed() == was;
    if range.None? { return true; }
    settled := AnswerRequest(list, element, revision, c, range.value);
  }

  // ---------------------------------------------------------------- models and frames

  datatype Op =
    | Show(start: Starts, cacheExtent: real, keys: seq<Key>, keep: set<Key>, limit: Option<nat>)
    | Frame(c: Constraints)

  /** What the source demands of a model and of constraints. */
  ghost predicate OpOk(op: Op) {
    match op
    case Show(start, _, keys, _, _) => Monotone(start) && DistinctSeq(keys) && 2 * |keys| < SIZE_MODULUS
    case Frame(c) => ConstraintsValid(c)
  }

  /**
   A model is taken over unless its cache extent is negative.  A frame settles unless its window is
   collapsed, and then the elements are what realizing the cached range makes of them; else none moves.
   */
  ghost predicate StepOk(s: Scene, op: Op, done: bool, t: Scene) {
    match op
    case Show(start, cacheExtent, keys, keep, limit) =>
      && done == (cacheExtent >= 0.0)
      && t == if done then Scene(start, cacheExtent, keys, keep, limit, Adopted(s.places, keep, limit)) else s
    case Frame(c) => FrameOk(s, c, done, t)
  }

  ghost predicate FrameOk(s: Scene, c: Constraints, settled: bool, t: Scene) {
    && (settled <==> !Collapsed(s.start, |s.keys|, c.scroll, c.remaining, s.cacheExtent))
    && t == s.(places := t.places)
    && if settled then Reaches(s.start, s.cacheExtent, s.keys, s.keep, s.limit, c, s.places, t.places)
       else t.places == s.places
  }

  /** A settled frame has mounted the elements of exactly the items near its window, in order. */
  lemma FrameShowsNear(s: Scene, c: Constraints, t: Scene) returns (first: nat, end: nat)
    requires FrameOk(s, c, true, t) && Monotone(s.start) && s.cacheExtent >= 0.0 && ConstraintsValid(c)
    ensures first <= end <= |s.keys| && Carries(t.places.mounted, s.keys[first..end])
    ensures HoldsNear(s.start, |s.keys|, c.scroll, c.remaining, s.cacheExtent, first, end)
  {
    first := FirstCached(s.start, |s.keys|, c.scroll, s.cacheExtent);
    end := CachedEnd(s.start, |s.keys|, c.scroll, c.remaining, s.cacheExtent);
    CachedExactly(s.start, |s.keys|, c.scroll, c.remaining, s.cacheExtent);
    ChosenCarries(t.places.mounted, s.keys[first..end], s.places.mounted + s.places.dormant, s.places.nextId);
  }

  ghost predicate Apart(p: Places) {
    DistinctKeys(p.mounted + p.dormant)
  }

  /** The scenes that the operations lead through. */
  ghost predicate Trail(ops: seq<Op>, done: seq<bool>, trail: seq<Scene>) {
    && |done| <= |ops| && |trail| == |done| + 1
    && (forall i | 0 <= i < |trail| :: Apart(trail[i].places))
    && forall i | 0 <= i < |done| :: StepOk(trail[i], ops[i], done[i], trail[i + 1])
  }

  lemma TrailNext(ops: seq<Op>, done: seq<bool>, trail: seq<Scene>, one: bool, t: Scene)
    requires Trail(ops, done, trail) && |done| < |ops|
    requires Apart(t.places) && StepOk(trail[|done|], ops[|done|], one, t)
    ensures Trail(ops, done + [one], trail + [t])
  {
    var done', trail' := done + [one], trail + [t];
    forall i | 0 <= i < |done'| ensures StepOk(trail'[i], ops[i], done'[i], trail'[i + 1]) {
      if i < |done| { assert StepOk(trail[i], ops[i], done[i], trail[i + 1]); }
    }
  }

  /** What is mounted after each operation. */
  ghost predicate Showing(shown: seq<seq<Element>>, trail: seq<Scene>) {
    |trail| == |shown| + 1 && forall i | 0 <= i < |shown| :: shown[i] == trail[i + 1].places.mounted
  }

  /** Coupled under the latest revision, with room for the children of any model. */
  ghost predicate Ready(list: RenderSliverFixedExtentList, element: LazyElement, revision: nat)
    reads list, element
  {
    Coupled(list, element, revision) && list.mountedRevision <= revision && 2 * |list.children| < SIZE_MODULUS
  }

  lemma PlacedApart(element: LazyElement)
    requires element.Valid()
    ensures Apart(element.Placed())
  {
    KeysConcat(element.children, element.keptAlive);
  }

  const EMPTY := Places([], [], [], 0)

  method Blank(start: Starts) returns (list: RenderSliverFixedExtentList, element: LazyElement)
    requires Monotone(start)
    ensures fresh(list) && fresh(element) && list.Valid() && element.Valid()
    ensures list.children == [] && list.mountedRevision == 0 && element.Placed() == EMPTY
  {
    list := new RenderSliverFixedExtentList(start);
    element := new LazyElement();
  }

  lemma StillEmpty(was: Places, now: Places, keep: set<Key>, limit: Option<nat>)
    requires was == EMPTY && now == Adopted(was, keep, limit)
    ensures now == EMPTY
  {
  }

  lemma FirstReady(list: RenderSliverFixedExtentList, element: LazyElement)
    requires Coupled(list, element, 1) && list.children == [] && list.mountedRevision == 0
    ensures Ready(list, element, 1)
  {
  }

  method InstallFirst(list: RenderSliverFixedExtentList, element: LazyElement, keys: seq<Key>, keep: set<Key>,
                      limit: Option<nat>)
    requires list.Valid() && element.Valid() && DistinctSeq(keys) && 2 * |keys| < SIZE_MODULUS
    requires list.children == [] && list.mountedRevision == 0 && element.Placed() == EMPTY
    modifies element`keys, element`keepAliveKeys, element`limit, element`keptAlive, element`unmounted
    modifies list`lazy, list`logicalChildCount, list`modelRevision, list`requested, list`needsLayout
    ensures Ready(list, element, 1) && element.Placed() == EMPTY
    ensures element.keys == keys && element.keepAliveKeys == keep && element.limit == limit
  {
    ghost var was := element.Placed();
    InstallModels(list, element, keys, keep, limit, 1);
    StillEmpty(was, element.Placed(), keep, limit);
    FirstReady(list, element);
  }

  /** The first model of a new list. */
  method Open(start: Starts, cacheExtent: real, keys: seq<Key>, keep: set<Key>, limit: Option<nat>)
    returns (list: RenderSliverFixedExtentList, element: LazyElement)
    requires Monotone(start) && cacheExtent >= 0.0 && DistinctSeq(keys) && 2 * |keys| < SIZE_MODULUS
    ensures fresh(list) && fresh(element) && Ready(list, element, 1)
    ensures SceneOf(list, element) == Scene(start, cacheExtent, keys, keep, limit, EMPTY)
  {
    list, element := Blank(start);
    var ok := SetExtents(list, start, cacheExtent);
    InstallFirst(list, element, keys, keep, limit);
  }

  /** A new model gets a revision of its own. */
  method PerformShow(list: RenderSliverFixedExtentList, element: LazyElement, revision: nat, op: Op)
    returns (done: bool, next: nat)
    requires Ready(list, element, revision) && OpOk(op) && op.Show?
    modifies element`keys, element`keepAliveKeys, element`limit, element`keptAlive, element`unmounted
    modifies list`start, list`cacheExtent, list`lazy, list`logicalChildCount, list`modelRevision, list`requested,
             list`needsLayout
    ensures Ready(list, element, next) && StepOk(old(SceneOf(list, element)), op, done, SceneOf(list, element))
  {
    done := ShowModel(list, element, op.start, op.cacheExtent, op.keys, op.keep, op.limit, revision + 1);
    next := if done then revision + 1 else revision;
  }

  lemma FrameReached(s: Scene, c: Constraints, settled: bool, t: Scene)
    requires settled <==> !Collapsed(s.start, |s.keys|, c.scroll, c.remaining, s.cacheExtent)
    requires t == s.(places := t.places)
    requires settled ==> Reaches(s.start, s.cacheExtent, s.keys, s.keep, s.limit, c, s.places, t.places)
    requires !settled ==> t.places == s.places
    ensures FrameOk(s, c, settled, t)
  {
  }

  lemma StillReady(list: RenderSliverFixedExtentList, element: LazyElement, revision: nat)
    requires Coupled(list, element, revision) && list.mountedRevision == revision
    ensures Ready(list, element, revision)
  {
  }

  method ReadyFrame(list: RenderSliverFixedExtentList, element: LazyElement, revision: nat, c: Constraints)
    returns (settled: bool)
    requires Ready(list, element, revision) && ConstraintsValid(c)
    modifies list`children, list`firstMounted, list`mountedCount, list`mountedRevision, list`requested,
             list`needsLayout, list`constraints, list`firstVisibleIndex, list`firstVisibleChild,
             list`visibleCount, list`geometry
    modifies element`children, element`keptAlive, element`nextId, element`unmounted, element`created, element`left,
             element`clock
    ensures Ready(list, element, revision) && (settled <==> !Shut(list, |element.keys|, c))
    ensures if settled then Shows(list, element, c, old(element.Placed()))
            else element.Placed() == old(element.Placed())
  {
    settled := LayoutFrame(list, element, revision, c);
    if settled { StillReady(list, element, revision); }
  }

  method PerformFrame(list: RenderSliverFixedExtentList, element: LazyElement, revision: nat, c: Constraints)
    returns (settled: bool)
    requires Ready(list, element, revision) && ConstraintsValid(c)
    modifies list`children, list`firstMounted, list`mountedCount, list`mountedRevision, list`requested,
             list`needsLayout, list`constraints, list`firstVisibleIndex, list`firstVisibleChild,
             list`visibleCount, list`geometry
    modifies element`children, element`keptAlive, element`nextId, element`unmounted, element`created, element`left,
             element`clock
    ensures Ready(list, element, revision)
    ensures FrameOk(old(SceneOf(list, element)), c, settled, SceneOf(list, element))
  {
    ghost var s := SceneOf(list, element);
    settled := ReadyFrame(list, element, revision, c);
    FrameReached(s, c, settled, SceneOf(list, element));
  }

  /** One operation. */
  method Perform(list: RenderSliverFixedExtentList, element: LazyElement, revision: nat, op: Op)
    returns (done: bool, next: nat)
    requires Ready(list, element, revision) && OpOk(op)
    modifies list, element
    ensures Ready(list, element, next) && StepOk(old(SceneOf(list, element)), op, done, SceneOf(list, element))
  {
    match op
    case Show(_, _, _, _, _) => done, next := PerformShow(list, element, revision, op);
    case Frame(c) =>
      done := PerformFrame(list, element, revision, c);
      next := revision;
  }

  /**
   Any session of new models and frames: what is shown after each operation, where every element is, and
   which frames settle are exactly what the steps say, from the state found to the state left behind.
   */
  method Session(list: RenderSliverFixedExtentList, element: LazyElement, revision: nat, ops: seq<Op>)
    returns (done: seq<bool>, shown: seq<seq<Element>>, next: nat, ghost trail: seq<Scene>)
    requires Ready(list, element, revision) && forall op | op in ops :: OpOk(op)
    modifies list, element
    ensures Ready(list, element, next) && |done| == |ops| && Trail(ops, done, trail) && Showing(shown, trail)
    ensures trail[0] == old(SceneOf(list, element)) && trail[|ops|] == SceneOf(list, element)
  {
    done, shown, next, trail := [], [], revision, [SceneOf(list, element)];
    PlacedApart(element);
    for n := 0 to |ops|
      invariant Ready(list, element, next) && |done| == n && Trail(ops, done, trail) && Showing(shown, trail)
      invariant trail[0] == old(SceneOf(list, element)) && trail[n] == SceneOf(list, element)
    {
      var one;
      one, next := Perform(list, element, next, ops[n]);
      PlacedApart(element);
      TrailNext(ops, done, trail, one, SceneOf(list, element));
      done, shown, trail := done + [one], shown + [element.children], trail + [SceneOf(list, element)];
    }
  }

  // ---------------------------------------------------------------- identity over a session

  /** The model keeps dormant elements with this key alive, however many there are. */
  predicate KeepsAlive(s: Scene, key: Key) {
    key in s.keep && s.limit.None?
  }

  predicate InPlace(s: Scene, e: Element) {
    e in s.places.mounted + s.places.dormant
  }

  lemma AdoptedKeeps(p: Places, keep: set<Key>, e: Element)
    requires e in p.mounted + p.dormant && e.key in keep
    ensures e in Adopted(p, keep, None).mounted + Adopted(p, keep, None).dormant
  {
    FiltersHave(p.dormant, keep);
  }

  lemma StepKeeps(s: Scene, op: Op, done: bool, t: Scene, e: Element)
    requires StepOk(s, op, done, t) && Apart(s.places) && InPlace(s, e)
    requires KeepsAlive(s, e.key) && KeepsAlive(t, e.key)
    ensures InPlace(t, e)
  {
    match op
    case Show(_, _, _, keep, _) => if done { AdoptedKeeps(s.places, keep, e); }
    case Frame(c) =>
      if done {
        var first, end := FirstCached(s.start, |s.keys|, c.scroll, s.cacheExtent),
                          CachedEnd(s.start, |s.keys|, c.scroll, c.remaining, s.cacheExtent);
        WorthKeeping(s.places, s.keys[first..end], s.keep, t.places, e);
      }
  }

  lemma {:induction false} KeptThrough(ops: seq<Op>, done: seq<bool>, trail: seq<Scene>, i: nat, j: nat, e: Element)
    requires Trail(ops, done, trail) && i <= j < |trail| && InPlace(trail[i], e)
    requires forall n | i <= n <= j :: KeepsAlive(trail[n], e.key)
    ensures InPlace(trail[j], e)
    decreases j
  {
    if i < j {
      KeptThrough(ops, done, trail, i, j - 1, e);
      assert StepOk(trail[j - 1], ops[j - 1], done[j - 1], trail[j]);
      StepKeeps(trail[j - 1], ops[j - 1], done[j - 1], trail[j], e);
    }
  }

  /**
   As long as every model of a session keeps a key alive without a limit, whatever is shown for it is one
   and the same element, through any scrolling and any change of model in between.
   */
  lemma SameThroughout(ops: seq<Op>, done: seq<bool>, trail: seq<Scene>, i: nat, j: nat, e: Element, f: Element)
    requires Trail(ops, done, trail) && i <= j < |trail|
    requires e in trail[i].places.mounted && f in trail[j].places.mounted && e.key == f.key
    requires forall n | i <= n <= j :: KeepsAlive(trail[n], e.key)
    ensures e == f
  {
    KeptThrough(ops, done, trail, i, j, e);
    SameKeySame(trail[j].places.mounted + trail[j].places.dormant, e, f);
  }
}
