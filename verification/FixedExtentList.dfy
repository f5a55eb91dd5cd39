/**
 RenderSliverFixedExtentList (src/rendering.cpp): layout either settles on the mounted children or
 asks for the cached range, and hit testing forwards to the visible child under the position.
 */
module FixedExtentList {
  import opened Common
  import opened FixedExtentRanges

  datatype ChildRange = ChildRange(first: nat, end: nat, revision: nat)
  datatype Geometry = Geometry(scrollExtent: real, paintExtent: real, hitTestExtent: real, overflows: bool)
  datatype Constraints = Constraints(scroll: real, remaining: real, cross: real)
  datatype Hit = Hit(child: nat, local: real)

  const SIZE_MODULUS: nat := 0x1_0000_0000_0000_0000

  /** Subtraction of std::size_t. */
  function SizeSub(a: nat, b: nat): int {
    if b <= a then a - b else a - b + SIZE_MODULUS
  }

  predicate ConstraintsValid(c: Constraints) {
    c.scroll >= 0.0 && c.remaining >= 0.0 && c.cross >= 0.0
  }

  class RenderSliverFixedExtentList {
    var start: Starts                  // where each item begins, for the current item extent
    var cacheExtent: real
    var lazy: bool
    var logicalChildCount: nat
    var firstMounted: nat
    var mountedCount: nat
    var modelRevision: nat
    var mountedRevision: nat
    var requested: Option<ChildRange>
    var firstVisibleIndex: nat
    var firstVisibleChild: nat
    var visibleCount: nat
    var children: seq<real>            // the paint offset each mounted child was last given
    var constraints: Option<Constraints>
    var needsLayout: bool
    var geometry: Geometry

    predicate Sizes()
      reads this
    {
      cacheExtent >= 0.0 && |children| + logicalChildCount < SIZE_MODULUS
      && (constraints.Some? ==> ConstraintsValid(constraints.value))
    }

    ghost predicate Valid()
      reads this
    {
      Monotone(start) && Sizes() && (!needsLayout && constraints.Some? ==> LaidOut())
    }

    function Count(): nat
      reads this
    {
      if lazy then logicalChildCount else |children|
    }

    function Base(): nat
      reads this
    {
      if lazy then firstMounted else 0
    }

    function CacheFirst(c: Constraints): nat
      reads this
    {
      FirstCached(start, Count(), c.scroll, cacheExtent)
    }

    function CacheEnd(c: Constraints): nat
      reads this
    {
      CachedEnd(start, Count(), c.scroll, c.remaining, cacheExtent)
    }

    /** The mounted children are exactly the cached range of the current model. */
    predicate Settles(c: Constraints)
      reads this
    {
      !lazy ||
      (mountedRevision == modelRevision && firstMounted == CacheFirst(c) && firstMounted + mountedCount == CacheEnd(c)
       && mountedCount == |children|)
    }

    /** What a finished layout leaves behind. */
    predicate LaidOut()
      reads this
      requires Sizes() && constraints.Some?
    {
      var c := constraints.value;
      var extent := VisibleExtent(start, Count(), c.scroll, c.remaining);
      && firstVisibleIndex == FirstVisible(start, Count(), c.scroll)
      && geometry == Geometry(start(Count()), extent, if Settles(c) then extent else 0.0,
                              c.scroll > 0.0 || extent < start(Count()))
      && (if Settles(c) then
            && requested == None
            && firstVisibleIndex == Base() + firstVisibleChild
            && firstVisibleIndex + visibleCount == VisibleEnd(start, Count(), c.scroll, c.remaining)
            && firstVisibleChild + visibleCount <= |children|
            && (forall k | firstVisibleChild <= k < firstVisibleChild + visibleCount ::
                children[k] == start(Base() + k) - c.scroll)
          else
            requested == Some(ChildRange(CacheFirst(c), CacheEnd(c), modelRevision)) && visibleCount == 0)
    }

    constructor (initial: Starts)
      requires Monotone(initial)
      ensures Valid() && start == initial && children == [] && !lazy && needsLayout && mountedRevision == 0
    {
      start, cacheExtent, lazy, logicalChildCount := initial, 0.0, false, 0;
      firstMounted, mountedCount, modelRevision, mountedRevision, requested := 0, 0, 0, 0, None;
      firstVisibleIndex, firstVisibleChild, visibleCount := 0, 0, 0;
      children, constraints, needsLayout := [], None, true;
      geometry := Geometry(0.0, 0.0, 0.0, false);
    }

    method SetItemExtent(next: Starts)
      requires Valid() && Monotone(next)
      modifies this`start, this`needsLayout
      ensures Valid() && start == next && needsLayout
    {
      start, needsLayout := next, true;
    }

    /** Refused when negative. */
    method SetCacheExtent(extent: real) returns (ok: bool)
      requires Valid()
      modifies this`cacheExtent, this`needsLayout
      ensures Valid() && ok == (extent >= 0.0) && cacheExtent == (if ok then extent else old(cacheExtent))
      ensures needsLayout == (old(needsLayout) || cacheExtent != old(cacheExtent))
    {
      if extent < 0.0 { return false; }
      if cacheExtent != extent { cacheExtent, needsLayout := extent, true; }
      return true;
    }

    method SetLazyModel(count: nat, revision: nat)
      requires Valid() && |children| + count < SIZE_MODULUS
      modifies this`lazy, this`logicalChildCount, this`modelRevision, this`requested, this`needsLayout
      ensures Valid() && lazy && logicalChildCount == count && modelRevision == revision
      ensures needsLayout == (old(needsLayout)
                              || !(old(lazy) && old(logicalChildCount) == count && old(modelRevision) == revision))
    {
      if lazy && logicalChildCount == count && modelRevision == revision { return; }
      lazy, logicalChildCount, modelRevision := true, count, revision;
      requested, needsLayout := None, true;
    }

    method SetMountedRange(first: nat, count: nat, revision: nat) returns (ok: bool)
      requires Valid()
      modifies this`firstMounted, this`mountedCount, this`mountedRevision, this`requested, this`needsLayout
      ensures Valid() && ok == (lazy && revision == modelRevision && first + count <= logicalChildCount)
      ensures ok ==> firstMounted == first && mountedCount == count && mountedRevision == revision
      ensures ok ==> requested == None && needsLayout
      ensures !ok ==> firstMounted == old(firstMounted) && mountedCount == old(mountedCount)
                      && mountedRevision == old(mountedRevision)
                      && requested == old(requested) && needsLayout == old(needsLayout)
    {
      if !lazy || revision != modelRevision || first > logicalChildCount || count > logicalChildCount - first {
        return false;
      }
      firstMounted, mountedCount, mountedRevision := first, count, revision;
      requested, needsLayout := None, true;
      return true;
    }

    method ClearLazyModel()
      requires Valid()
      modifies this
      ensures Valid() && !lazy && children == old(children) && start == old(start) && cacheExtent == old(cacheExtent)
      ensures constraints == old(constraints) && needsLayout == (old(needsLayout) || old(lazy))
    {
      if !lazy { return; }
      lazy, logicalChildCount, firstMounted, mountedCount := false, 0, 0, 0;
      modelRevision, mountedRevision := 0, 0;
      requested, needsLayout := None, true;
    }

    method SetChildren(offsets: seq<real>)
      requires Valid() && |offsets| + logicalChildCount < SIZE_MODULUS
      modifies this`children, this`needsLayout
      ensures Valid() && children == offsets && needsLayout
    {
      children, needsLayout := offsets, true;
    }

    /** The test of perform_layout, with its wrapping subtraction, is exactly whether the children settle. */
    lemma SettlesTest(c: Constraints, first: nat, end: nat)
      requires Monotone(start) && Sizes() && ConstraintsValid(c) && first == CacheFirst(c) && end == CacheEnd(c)
      ensures first <= Count() && end <= Count()
      ensures Settles(c) <==>
              !(lazy && (mountedRevision != modelRevision || firstMounted != first
                         || mountedCount != SizeSub(end, first)
                         || mountedCount != |children|))
    {
      FirstCachedBefore(start, Count(), c.scroll, cacheExtent);
      ScanMeaning(start, c.scroll + (c.remaining + cacheExtent), false, 0, Count());
    }

    /** Children that settle hold everything visible. */
    lemma SettledRange(c: Constraints)
      requires Monotone(start) && Sizes() && ConstraintsValid(c) && Settles(c)
      ensures var f, end := FirstVisible(start, Count(), c.scroll), VisibleEnd(start, Count(), c.scroll, c.remaining);
              Base() <= f <= end && (f < end ==> end <= Base() + |children|) && f <= Base() + |children|
    {
      VisibleExactly(start, Count(), c.scroll, c.remaining);
      if lazy {
        FirstCachedBefore(start, Count(), c.scroll, cacheExtent);
        if VisibleExtent(start, Count(), c.scroll, c.remaining) > 0.0 {
          VisibleIsCached(start, Count(), c.scroll, c.remaining, cacheExtent);
        }
        EmptyWindow(start, Count(), c.scroll, c.remaining, cacheExtent);
      }
    }

    /** These children are exactly the items near the window. */
    ghost predicate Near(c: Constraints, first: nat, end: nat)
      reads this
    {
      HoldsNear(start, Count(), c.scroll, c.remaining, cacheExtent, first, end)
    }

    /** A finished layout has asked for, or holds, exactly the items near the window. */
    ghost predicate AsksNear(c: Constraints)
      reads this
    {
      && (requested.Some? ==> Near(c, requested.value.first, requested.value.end))
      && (requested.None? && lazy ==> Near(c, firstMounted, firstMounted + mountedCount))
    }

    lemma LaidOutNear(c: Constraints)
      requires Valid() && !needsLayout && constraints == Some(c)
      ensures AsksNear(c)
    {
      CachedExactly(start, Count(), c.scroll, c.remaining, cacheExtent);
    }

    method PerformLayout(c: Constraints)
      requires Valid() && ConstraintsValid(c)
      modifies this`constraints, this`needsLayout, this`firstVisibleIndex, this`firstVisibleChild, this`visibleCount,
               this`requested, this`geometry, this`children
      ensures Valid() && !needsLayout && constraints == Some(c) && |children| == |old(children)|
      ensures AsksNear(c)
      ensures forall k | 0 <= k < |children| && !(firstVisibleChild <= k < firstVisibleChild + visibleCount) ::
                children[k] == old(children[k])
    {
      constraints := Some(c);
      var count := Count();
      var scrollExtent := start(count);
      var visibleExtent := Min(Max(0.0, scrollExtent - c.scroll), c.remaining);
      firstVisibleIndex := FirstItemAt(c.scroll, start, count, scrollExtent);
      VisibleExactly(start, count, c.scroll, c.remaining);
      if visibleExtent == 0.0 {
        visibleCount := 0;
      } else {
        var trailing := FirstItemStartingAtOrAfter(c.scroll, visibleExtent, start, count);
        visibleCount := trailing - firstVisibleIndex;
      }
      needsLayout := false;
      Settle(c, visibleExtent);
      LaidOutNear(c);
    }

    method Settle(c: Constraints, visibleExtent: real)
      requires Monotone(start) && Sizes() && constraints == Some(c) && ConstraintsValid(c)
      requires visibleExtent == VisibleExtent(start, Count(), c.scroll, c.remaining)
      requires firstVisibleIndex == FirstVisible(start, Count(), c.scroll)
      requires firstVisibleIndex + visibleCount == VisibleEnd(start, Count(), c.scroll, c.remaining)
      modifies this`firstVisibleChild, this`visibleCount, this`requested, this`geometry, this`children
      ensures Sizes() && LaidOut() && |children| == |old(children)|
      ensures forall k | 0 <= k < |children| && !(firstVisibleChild <= k < firstVisibleChild + visibleCount) ::
                children[k] == old(children[k])
    {
      var first := FirstItemIntersectingLeadingCache(c.scroll, cacheExtent, start, Count(), start(Count()));
      var end := FirstItemStartingAtOrAfter(c.scroll, c.remaining + cacheExtent, start, Count());
      SettlesTest(c, first, end);
      if lazy && (mountedRevision != modelRevision || firstMounted != first || mountedCount != SizeSub(end, first) ||
                  mountedCount != |children|) {
        RequestRange(c, visibleExtent, first, end);
      } else {
        LayoutSettled(c, visibleExtent);
      }
    }

    method RequestRange(c: Constraints, visibleExtent: real, first: nat, end: nat)
      requires Sizes() && constraints == Some(c) && !Settles(c) && first == CacheFirst(c) && end == CacheEnd(c)
      requires visibleExtent == VisibleExtent(start, Count(), c.scroll, c.remaining)
      requires firstVisibleIndex == FirstVisible(start, Count(), c.scroll)
      modifies this`firstVisibleChild, this`visibleCount, this`requested, this`geometry
      ensures Sizes() && LaidOut()
    {
      requested, firstVisibleChild, visibleCount := Some(ChildRange(first, end, modelRevision)), 0, 0;
      geometry := Geometry(start(Count()), visibleExtent, 0.0, c.scroll > 0.0 || visibleExtent < start(Count()));
    }

    method LayoutSettled(c: Constraints, visibleExtent: real)
      requires Monotone(start) && Sizes() && constraints == Some(c) && ConstraintsValid(c) && Settles(c)
      requires visibleExtent == VisibleExtent(start, Count(), c.scroll, c.remaining)
      requires firstVisibleIndex == FirstVisible(start, Count(), c.scroll)
      requires firstVisibleIndex + visibleCount == VisibleEnd(start, Count(), c.scroll, c.remaining)
      modifies this`firstVisibleChild, this`requested, this`geometry, this`children
      ensures Sizes() && LaidOut() && |children| == |old(children)|
      ensures forall k | 0 <= k < |children| && !(firstVisibleChild <= k < firstVisibleChild + visibleCount) ::
                children[k] == old(children[k])
    {
      SettledRange(c);
      PlaceVisible(c, visibleExtent);
    }

    method PlaceVisible(c: Constraints, visibleExtent: real)
      requires Sizes() && constraints == Some(c) && Settles(c)
      requires visibleExtent == VisibleExtent(start, Count(), c.scroll, c.remaining)
      requires firstVisibleIndex == FirstVisible(start, Count(), c.scroll)
      requires firstVisibleIndex + visibleCount == VisibleEnd(start, Count(), c.scroll, c.remaining)
      requires Base() <= firstVisibleIndex && firstVisibleIndex + visibleCount <= Base() + |children|
      modifies this`firstVisibleChild, this`requested, this`geometry, this`children
      ensures Sizes() && LaidOut() && |children| == |old(children)|
      ensures forall k | 0 <= k < |children| && !(firstVisibleChild <= k < firstVisibleChild + visibleCount) ::
                children[k] == old(children[k])
    {
      var first := if lazy then firstVisibleIndex - firstMounted else firstVisibleIndex;
      var size := Geometry(start(Count()), visibleExtent, visibleExtent,
                           c.scroll > 0.0 || visibleExtent < start(Count()));
      requested, firstVisibleChild, geometry := None, first, size;
      LayoutVisible(c.scroll);
    }

    method LayoutVisible(scroll: real)
      requires firstVisibleChild + visibleCount <= |children|
      modifies this`children
      ensures |children| == |old(children)|
      ensures forall k | 0 <= k < |children| ::
                children[k] ==
                if firstVisibleChild <= k < firstVisibleChild + visibleCount then start(Base() + k) - scroll
                else old(children[k])
    {
      var end := firstVisibleChild + visibleCount;
      for child := firstVisibleChild to end
        invariant |children| == |old(children)|
        invariant forall k | 0 <= k < |children| ::
                    children[k] == if firstVisibleChild <= k < child then start(Base() + k) - scroll
                        else old(children[k])
      {
        var logical := if lazy then firstMounted + child else child;
        children := children[child := start(logical) - scroll];
      }
    }

    /** What a lazy layout asks for, if anything: a range inside the model, unless the window collapsed. */
    method LayoutRequest(c: Constraints) returns (range: Option<ChildRange>)
      requires Valid() && ConstraintsValid(c) && lazy
      modifies this`constraints, this`needsLayout, this`firstVisibleIndex, this`firstVisibleChild, this`visibleCount,
               this`requested, this`geometry, this`children
      ensures Valid() && !needsLayout && constraints == Some(c) && range == requested
      ensures |children| == |old(children)|
      ensures range.None? ==> Settles(c) && !Collapsed(start, logicalChildCount, c.scroll, c.remaining, cacheExtent)
      ensures range.Some? ==>
                && range.value.first == CacheFirst(c) && range.value.end == CacheEnd(c) <= logicalChildCount
                && (range.value.first <= range.value.end <==>
                    !Collapsed(start, logicalChildCount, c.scroll, c.remaining, cacheExtent))
    {
      CachedUnderflow(start, logicalChildCount, c.scroll, c.remaining, cacheExtent);
      ScanMeaning(start, c.scroll + (c.remaining + cacheExtent), false, 0, logicalChildCount);
      PerformLayout(c);
      return requested;
    }

    method MountRange(c: Constraints, first: nat, end: nat)
      requires Valid() && lazy && ConstraintsValid(c) && 2 * logicalChildCount < SIZE_MODULUS
      requires first == CacheFirst(c) && end == CacheEnd(c) && first <= end <= logicalChildCount
      modifies this`children, this`firstMounted, this`mountedCount, this`mountedRevision, this`requested,
               this`needsLayout
      ensures Valid() && Settles(c) && firstMounted == first && mountedCount == end - first
    {
      SetChildren(seq(end - first, _ => 0.0));
      var mounted := SetMountedRange(first, end - first, modelRevision);
    }

    /** Mounting exactly the requested range settles the next layout. */
    method MountRequested(c: Constraints)
      requires Valid() && lazy && !needsLayout && constraints == Some(c) && ConstraintsValid(c) && requested.Some?
      requires CacheFirst(c) <= CacheEnd(c) <= logicalChildCount && 2 * logicalChildCount < SIZE_MODULUS
      modifies this`children, this`firstMounted, this`mountedCount, this`mountedRevision, this`requested,
               this`needsLayout, this`constraints, this`firstVisibleIndex, this`firstVisibleChild,
               this`visibleCount, this`geometry
      ensures Valid() && !needsLayout && constraints == Some(c) && requested.None? && Settles(c)
      ensures firstMounted == CacheFirst(c) && |children| == mountedCount
    {
      var range := requested.value;
      MountRange(c, range.first, range.end);
      PerformLayout(c);
    }

    /** The child a hit at (x, y) is forwarded to, with the vertical position inside it. */
    method HitTest(x: real, y: real) returns (hit: Option<Hit>)
      requires Valid()
      ensures hit.Some? <==>
              && !needsLayout && constraints.Some?
              && 0.0 <= x < constraints.value.cross && 0.0 <= y < geometry.hitTestExtent
      ensures hit.Some? ==>
                var scroll, child := constraints.value.scroll, hit.value.child;
                && firstVisibleChild <= child < firstVisibleChild + visibleCount <= |children|
                && (forall i: nat :: Contains(start, scroll, y, i) <==> i == Base() + child)
                && hit.value.local == y - children[child] == scroll + y - start(Base() + child)
    {
      var visibleEnd, childEnd := firstVisibleIndex + visibleCount, firstVisibleChild + visibleCount;
      if needsLayout || constraints.None? || firstVisibleIndex > visibleEnd { return None; }
      if x < 0.0 || x >= constraints.value.cross || y < 0.0 || y >= geometry.hitTestExtent { return None; }
      var c := constraints.value;
      var candidate := ItemAtViewportPosition(c.scroll, y, start, Count());
      ItemAtMeaning(start, Count(), c.scroll, c.remaining, y);
      SettledRange(c);
      if childEnd > |children| || candidate < firstVisibleIndex || candidate >= visibleEnd { return None; }
      var child := if lazy then candidate - firstMounted else candidate;
      if child >= childEnd { return None; }
      return Some(Hit(child, y - children[child]));
    }
  }

  /** With nothing visible the first visible index still lies within a range that did not underflow. */
  lemma EmptyWindow(start: Starts, count: nat, scroll: real, remaining: real, cache: real)
    requires Monotone(start) && scroll >= 0.0 && remaining >= 0.0 && cache >= 0.0
    requires FirstCached(start, count, scroll, cache) <= CachedEnd(start, count, scroll, remaining, cache)
    ensures FirstVisible(start, count, scroll) <= CachedEnd(start, count, scroll, remaining, cache)
  {
    var f, e := FirstVisible(start, count, scroll), CachedEnd(start, count, scroll, remaining, cache);
    ScanMeaning(start, scroll + (remaining + cache), false, 0, count);
    CachedUnderflow(start, count, scroll, remaining, cache);
    FirstCachedBefore(start, count, scroll, cache);
    Ascends(start, e, f);
    Ascends(start, 1, f);
    if e < f {
      assert !Before(start, scroll + (remaining + cache), false, e);
      if scroll < start(count) { FirstVisibleMeaning(start, count, scroll); }
    }
  }
}
