/**
 The index ranges of the fixed-extent sliver list (src/rendering.cpp): binary searches over the
 starts of the items, compared with linear scans, and the visible and cached ranges they give.
 The starts are any monotone sequence from zero, which covers products that were rounded.
 */
module FixedExtentRanges {
  type Starts = nat -> real

  predicate NoLater(start: Starts, i: nat, j: nat) {
    start(i) <= start(j)
  }

  ghost predicate Monotone(start: Starts) {
    start(0) == 0.0 && start(1) > 0.0 && forall i: nat, j: nat {:trigger NoLater(start, i, j)} | i <= j ::
        NoLater(start, i, j)
  }

  lemma Ascends(start: Starts, i: nat, j: nat)
    requires Monotone(start)
    ensures i <= j ==> start(i) <= start(j)
  {
    if i <= j { assert NoLater(start, i, j); }
  }

  // ---------------------------------------------------------------- linear scans

  /** The first index from `i` on whose item starts after `limit` (or at it, when not `inclusive`). */
  function Scan(start: Starts, limit: real, inclusive: bool, i: nat, count: nat): (r: nat)
    requires i <= count
    decreases count - i
  {
    if i < count && (start(i) < limit || (inclusive && start(i) == limit)) then
      Scan(start, limit, inclusive, i + 1, count)
    else i
  }

  predicate Before(start: Starts, limit: real, inclusive: bool, i: nat) {
    start(i) < limit || (inclusive && start(i) == limit)
  }

  /** Items before the limit come first. */
  lemma BeforeSplits(start: Starts, limit: real, inclusive: bool, m: nat)
    requires Monotone(start)
    ensures forall k: nat | k <= m :: Before(start, limit, inclusive, m) ==> Before(start, limit, inclusive, k)
    ensures forall k: nat | m <= k :: !Before(start, limit, inclusive, m) ==> !Before(start, limit, inclusive, k)
  {
    forall k: nat | k <= m ensures start(k) <= start(m) { assert NoLater(start, k, m); }
    forall k: nat | m <= k ensures start(m) <= start(k) { assert NoLater(start, m, k); }
  }

  lemma {:induction false} ScanMeaning(start: Starts, limit: real, inclusive: bool, i: nat, count: nat)
    requires i <= count && Monotone(start)
    ensures i <= Scan(start, limit, inclusive, i, count) <= count
    ensures forall k: nat | i <= k < count ::
            k < Scan(start, limit, inclusive, i, count) <==> Before(start, limit, inclusive, k)
    decreases count - i
  {
    if i < count && Before(start, limit, inclusive, i) {
      ScanMeaning(start, limit, inclusive, i + 1, count);
    } else {
      BeforeSplits(start, limit, inclusive, i);
    }
  }

  /** A position that splits the items into those before the limit and those not is where the scan stops. */
  lemma ScanUnique(start: Starts, limit: real, inclusive: bool, count: nat, r: nat)
    requires Monotone(start) && r <= count
    requires forall k: nat | k < r :: Before(start, limit, inclusive, k)
    requires forall k: nat | r <= k < count :: !Before(start, limit, inclusive, k)
    ensures r == Scan(start, limit, inclusive, 0, count)
  {
    ScanMeaning(start, limit, inclusive, 0, count);
    var s := Scan(start, limit, inclusive, 0, count);
    assert r < count ==> (r < s <==> Before(start, limit, inclusive, r));
    assert s < count ==> (s < r <==> Before(start, limit, inclusive, s));
  }

  // ---------------------------------------------------------------- binary searches

  method FirstItemAt(offset: real, start: Starts, count: nat, scrollExtent: real) returns (r: nat)
    requires Monotone(start)
    ensures r == if count == 0 || offset >= scrollExtent then count
                 else var past := Scan(start, offset, true, 0, count); if past == 0 then 0 else past - 1
  {
    if count == 0 || offset >= scrollExtent { return count; }
    var first, last := 0, count;
    while first < last
      invariant 0 <= first <= last <= count
      invariant forall k: nat | k < first :: Before(start, offset, true, k)
      invariant forall k: nat | last <= k < count :: !Before(start, offset, true, k)
    {
      var middle := first + (last - first) / 2;
      BeforeSplits(start, offset, true, middle);
      if start(middle) <= offset { first := middle + 1; } else { last := middle; }
    }
    ScanUnique(start, offset, true, count, first);
    return if first == 0 then 0 else first - 1;
  }

  method FirstItemStartingAtOrAfter(scroll: real, position: real, start: Starts, count: nat) returns (r: nat)
    requires Monotone(start)
    ensures r == Scan(start, scroll + position, false, 0, count)
  {
    ghost var limit := scroll + position;
    var first, last := 0, count;
    while first < last
      invariant 0 <= first <= last <= count
      invariant forall k: nat | k < first :: Before(start, limit, false, k)
      invariant forall k: nat | last <= k < count :: !Before(start, limit, false, k)
    {
      var middle := first + (last - first) / 2;
      BeforeSplits(start, limit, false, middle);
      if start(middle) - scroll < position { first := middle + 1; } else { last := middle; }
    }
    ScanUnique(start, scroll + position, false, count, first);
    return first;
  }

  method FirstItemIntersectingLeadingCache(scroll: real, cache: real, start: Starts, count: nat, scrollExtent: real)
    returns (r: nat)
    requires Monotone(start)
    ensures r == if count == 0 || scroll - scrollExtent >= cache then count
                 else if scroll <= cache then 0
                 else var past := Scan(start, scroll - cache, true, 0, count); if past == 0 then 0 else past - 1
  {
    if count == 0 || scroll - scrollExtent >= cache { return count; }
    if scroll <= cache { return 0; }
    ghost var limit := scroll - cache;
    var first, last := 0, count;
    while first < last
      invariant 0 <= first <= last <= count
      invariant forall k: nat | k < first :: Before(start, limit, true, k)
      invariant forall k: nat | last <= k < count :: !Before(start, limit, true, k)
    {
      var middle := first + (last - first) / 2;
      BeforeSplits(start, limit, true, middle);
      if start(middle) - scroll <= -cache { first := middle + 1; } else { last := middle; }
    }
    ScanUnique(start, scroll - cache, true, count, first);
    return if first == 0 then 0 else first - 1;
  }

  method ItemAtViewportPosition(scroll: real, position: real, start: Starts, count: nat) returns (r: nat)
    requires Monotone(start)
    ensures r == var past := Scan(start, scroll + position, true, 0, count); if past == 0 then count else past - 1
  {
    ghost var limit := scroll + position;
    var first, last := 0, count;
    while first < last
      invariant 0 <= first <= last <= count
      invariant forall k: nat | k < first :: Before(start, limit, true, k)
      invariant forall k: nat | last <= k < count :: !Before(start, limit, true, k)
    {
      var middle := first + (last - first) / 2;
      BeforeSplits(start, limit, true, middle);
      if start(middle) - scroll <= position { first := middle + 1; } else { last := middle; }
    }
    ScanUnique(start, scroll + position, true, count, first);
    return if first == 0 then count else first - 1;
  }

  // ---------------------------------------------------------------- ranges

  function Max(a: real, b: real): real { if a < b then b else a }
  function Min(a: real, b: real): real { if b < a then b else a }

  /** How much of the list is painted. */
  function VisibleExtent(start: Starts, count: nat, scroll: real, remaining: real): real {
    Min(Max(0.0, start(count) - scroll), remaining)
  }

  function FirstVisible(start: Starts, count: nat, scroll: real): nat {
    if count == 0 || scroll >= start(count) then count
    else var past := Scan(start, scroll, true, 0, count); if past == 0 then 0 else past - 1
  }

  function VisibleEnd(start: Starts, count: nat, scroll: real, remaining: real): nat {
    var extent := VisibleExtent(start, count, scroll, remaining);
    if extent == 0.0 then FirstVisible(start, count, scroll) else Scan(start, scroll + extent, false, 0, count)
  }

  function FirstCached(start: Starts, count: nat, scroll: real, cache: real): nat {
    if count == 0 || scroll - start(count) >= cache then count
    else if scroll <= cache then 0
    else var past := Scan(start, scroll - cache, true, 0, count); if past == 0 then 0 else past - 1
  }

  function CachedEnd(start: Starts, count: nat, scroll: real, remaining: real, cache: real): nat {
    Scan(start, scroll + (remaining + cache), false, 0, count)
  }

  /** The item that the scroll offset falls into: the last one that starts no later. */
  lemma FirstVisibleMeaning(start: Starts, count: nat, scroll: real)
    requires Monotone(start) && 0.0 <= scroll < start(count)
    ensures var f := FirstVisible(start, count, scroll); f < count && start(f) <= scroll < start(f + 1)
  {
    ScanMeaning(start, scroll, true, 0, count);
    var f := FirstVisible(start, count, scroll);
    assert count != 0;
    assert Before(start, scroll, true, 0);
    assert f < Scan(start, scroll, true, 0, count);
    assert Before(start, scroll, true, f);
    if f + 1 < count { assert !Before(start, scroll, true, f + 1); }
  }

  predicate Meets(start: Starts, scroll: real, extent: real, i: nat) {
    extent > 0.0 && start(i) < scroll + extent && scroll < start(i + 1)
  }

  /** The visible range is exactly the items that meet the painted window. */
  lemma VisibleExactly(start: Starts, count: nat, scroll: real, remaining: real)
    requires Monotone(start) && scroll >= 0.0 && remaining >= 0.0
    ensures var f, end := FirstVisible(start, count, scroll), VisibleEnd(start, count, scroll, remaining);
            && f <= end <= count
            && forall i: nat | i < count ::
               f <= i < end <==> Meets(start, scroll, VisibleExtent(start, count, scroll, remaining), i)
  {
    var extent := VisibleExtent(start, count, scroll, remaining);
    ScanMeaning(start, scroll, true, 0, count);
    if extent > 0.0 {
      var f := FirstVisible(start, count, scroll);
      FirstVisibleMeaning(start, count, scroll);
      ScanMeaning(start, scroll + extent, false, 0, count);
      assert Before(start, scroll + extent, false, f);
      forall i: nat | i < count
        ensures f <= i < VisibleEnd(start, count, scroll, remaining) <==> Meets(start, scroll, extent, i)
      {
        VisibleAt(start, count, scroll, extent, f, i);
      }
    }
  }

  lemma VisibleAt(start: Starts, count: nat, scroll: real, extent: real, f: nat, i: nat)
    requires Monotone(start) && extent > 0.0 && f < count && i < count && start(f) <= scroll < start(f + 1)
    ensures f <= i < Scan(start, scroll + extent, false, 0, count) <==> Meets(start, scroll, extent, i)
  {
    ScanMeaning(start, scroll + extent, false, 0, count);
    assert i < Scan(start, scroll + extent, false, 0, count) <==> Before(start, scroll + extent, false, i);
    assert if i < f then NoLater(start, i + 1, f) else NoLater(start, f + 1, i + 1);
  }

  /** Whatever is visible is cached. */
  lemma VisibleIsCached(start: Starts, count: nat, scroll: real, remaining: real, cache: real)
    requires Monotone(start) && scroll >= 0.0 && remaining >= 0.0 && cache >= 0.0
    requires VisibleExtent(start, count, scroll, remaining) > 0.0
    ensures FirstCached(start, count, scroll, cache) <= FirstVisible(start, count, scroll)
    ensures VisibleEnd(start, count, scroll, remaining) <= CachedEnd(start, count, scroll, remaining, cache) <= count
  {
    var extent := VisibleExtent(start, count, scroll, remaining);
    FirstVisibleMeaning(start, count, scroll);
    FirstCachedBefore(start, count, scroll, cache);
    var e, t := CachedEnd(start, count, scroll, remaining, cache), VisibleEnd(start, count, scroll, remaining);
    ScanMeaning(start, scroll + (remaining + cache), false, 0, count);
    ScanMeaning(start, scroll + extent, false, 0, count);
    if e < t {
      assert Before(start, scroll + extent, false, e);
      assert Before(start, scroll + (remaining + cache), false, e);
    }
  }

  lemma FirstCachedBefore(start: Starts, count: nat, scroll: real, cache: real)
    requires Monotone(start) && scroll >= 0.0 && cache >= 0.0
    ensures FirstCached(start, count, scroll, cache) <= FirstVisible(start, count, scroll) <= count
  {
    ScanMeaning(start, scroll, true, 0, count);
    ScanMeaning(start, scroll - cache, true, 0, count);
    var g, f := FirstCached(start, count, scroll, cache), FirstVisible(start, count, scroll);
    if f < g && g < count {
      assert Before(start, scroll - cache, true, g);
      assert Before(start, scroll, true, g);
    }
  }

  // ---------------------------------------------------------------- what the ranges hold

  /** The painted extent measures the part of the window that the list covers. */
  lemma VisibleExtentCovers(start: Starts, count: nat, scroll: real, remaining: real, y: real)
    requires Monotone(start) && scroll >= 0.0 && remaining >= 0.0 && y >= 0.0
    ensures y < VisibleExtent(start, count, scroll, remaining) <==> y < remaining && scroll + y < start(count)
  {
  }

  /** A list with items overflows exactly when some place in it is not painted. */
  lemma OverflowMeans(start: Starts, count: nat, scroll: real, remaining: real)
    requires Monotone(start) && scroll >= 0.0 && remaining >= 0.0 && count > 0
    ensures var extent := VisibleExtent(start, count, scroll, remaining);
            scroll > 0.0 || extent < start(count)
            <==> exists x: real {:trigger Unpainted(start, count, scroll, extent, x)} ::
                   Unpainted(start, count, scroll, extent, x)
  {
    var extent := VisibleExtent(start, count, scroll, remaining);
    assert NoLater(start, 1, count);
    if scroll > 0.0 { assert Unpainted(start, count, scroll, extent, 0.0); }
    if scroll == 0.0 && extent < start(count) { assert Unpainted(start, count, scroll, extent, extent); }
  }

  predicate Unpainted(start: Starts, count: nat, scroll: real, extent: real, x: real) {
    0.0 <= x < start(count) && !(scroll <= x < scroll + extent)
  }

  /** Item `i` ends no later than `limit`. */
  predicate EndsBy(start: Starts, i: nat, limit: real) {
    start(i + 1) <= limit
  }

  /** The last item that starts no later than `limit`, when some item starts and some ends after it. */
  lemma LastBefore(start: Starts, limit: real, count: nat)
    requires Monotone(start) && 0.0 <= limit < start(count)
    ensures var past := Scan(start, limit, true, 0, count);
            past > 0 && forall i: nat | i < count :: i < past - 1 <==> EndsBy(start, i, limit)
  {
    ScanMeaning(start, limit, true, 0, count);
    var past := Scan(start, limit, true, 0, count);
    assert Before(start, limit, true, 0);
    assert Before(start, limit, true, past - 1);
    if past < count { assert !Before(start, limit, true, past); }
    forall i: nat | i < count ensures i < past - 1 <==> EndsBy(start, i, limit) {
      assert if i < past - 1 then NoLater(start, i + 1, past - 1) else NoLater(start, past, i + 1);
    }
  }

  lemma AllEnd(start: Starts, limit: real, count: nat)
    requires Monotone(start) && start(count) <= limit
    ensures forall i: nat | i < count :: EndsBy(start, i, limit)
  {
    forall i: nat | i < count ensures EndsBy(start, i, limit) { assert NoLater(start, i + 1, count); }
  }

  lemma NoneEnds(start: Starts, limit: real, count: nat)
    requires Monotone(start) && limit <= 0.0
    ensures forall i: nat | i < count :: !EndsBy(start, i, limit)
  {
    forall i: nat | i < count ensures !EndsBy(start, i, limit) { assert NoLater(start, 1, i + 1); }
  }

  /** In front of the first visible item are exactly the items that end by the scroll offset. */
  lemma FirstVisibleExactly(start: Starts, count: nat, scroll: real)
    requires Monotone(start) && scroll >= 0.0
    ensures FirstVisible(start, count, scroll) <= count
    ensures forall i: nat | i < count :: i < FirstVisible(start, count, scroll) <==> EndsBy(start, i, scroll)
  {
    if scroll >= start(count) { AllEnd(start, scroll, count); } else { LastBefore(start, scroll, count); }
    ScanMeaning(start, scroll, true, 0, count);
  }

  /** Item `i` ends before the leading cache begins. */
  predicate InFront(start: Starts, scroll: real, cache: real, i: nat) {
    start(i + 1) <= scroll - cache
  }

  /**
   In front of the first cached item are exactly the items that end before the leading cache begins:
   all of them when the list does, and none when the cache reaches back to the start.
   */
  lemma FirstCachedExactly(start: Starts, count: nat, scroll: real, cache: real)
    requires Monotone(start) && scroll >= 0.0 && cache >= 0.0
    ensures FirstCached(start, count, scroll, cache) <= count
    ensures forall i: nat | i < count ::
              i < FirstCached(start, count, scroll, cache) <==> InFront(start, scroll, cache, i)
  {
    if scroll - start(count) >= cache {
      AllEnd(start, scroll - cache, count);
    } else if scroll <= cache {
      NoneEnds(start, scroll - cache, count);
    } else {
      LastBefore(start, scroll - cache, count);
    }
    ScanMeaning(start, scroll - cache, true, 0, count);
    forall i: nat | i < count ensures EndsBy(start, i, scroll - cache) <==> InFront(start, scroll, cache, i) {}
  }

  /** Item `i` meets the window and the cache extents around it. */
  predicate NearWindow(start: Starts, scroll: real, remaining: real, cache: real, i: nat) {
    start(i) < scroll + remaining + cache && start(i + 1) > scroll - cache
  }

  /** These indices are exactly the items near the window. */
  ghost predicate HoldsNear(start: Starts, count: nat, scroll: real, remaining: real, cache: real, first: nat, end: nat)
  {
    forall i: nat | i < count :: first <= i < end <==> NearWindow(start, scroll, remaining, cache, i)
  }

  /**
   The cached range is exactly the items near the window.  Each of its ends is exact as well, also when
   no item is near: items in front end by the leading cache, items behind start past the trailing one.
   */
  lemma CachedExactly(start: Starts, count: nat, scroll: real, remaining: real, cache: real)
    requires Monotone(start) && scroll >= 0.0 && remaining >= 0.0 && cache >= 0.0
    ensures var f, end := FirstCached(start, count, scroll, cache), CachedEnd(start, count, scroll, remaining, cache);
            && f <= count && end <= count && HoldsNear(start, count, scroll, remaining, cache, f, end)
            && forall i: nat | i < count :: && (i < f <==> InFront(start, scroll, cache, i))
                                            && (i < end <==> start(i) < scroll + remaining + cache)
  {
    var f, end := FirstCached(start, count, scroll, cache), CachedEnd(start, count, scroll, remaining, cache);
    var limit := scroll + (remaining + cache);
    FirstCachedExactly(start, count, scroll, cache);
    ScanMeaning(start, limit, false, 0, count);
    forall i: nat | i < count
      ensures i < f <==> InFront(start, scroll, cache, i)
      ensures i < end <==> start(i) < scroll + remaining + cache
      ensures f <= i < end <==> NearWindow(start, scroll, remaining, cache, i)
    {
      assert i < end <==> Before(start, limit, false, i);
      assert i < f <==> InFront(start, scroll, cache, i);
    }
  }

  // ---------------------------------------------------------------- the window that underflows

  /** The collapsed window in which the end of the cached range may precede its beginning. */
  ghost predicate Collapsed(start: Starts, count: nat, scroll: real, remaining: real, cache: real) {
    remaining == 0.0 && cache == 0.0 && scroll > 0.0 &&
    exists i: nat, j: nat :: i < j <= count && start(i) == scroll && start(j) == scroll
  }

  /** The subtraction that sizes the cached range underflows exactly in a collapsed window. */
  lemma CachedUnderflow(start: Starts, count: nat, scroll: real, remaining: real, cache: real)
    requires Monotone(start) && scroll >= 0.0 && remaining >= 0.0 && cache >= 0.0
    ensures CachedEnd(start, count, scroll, remaining, cache) < FirstCached(start, count, scroll, cache)
            <==> Collapsed(start, count, scroll, remaining, cache)
  {
    if CachedEnd(start, count, scroll, remaining, cache) < FirstCached(start, count, scroll, cache) {
      UnderflowCollapsed(start, count, scroll, remaining, cache);
    }
    if Collapsed(start, count, scroll, remaining, cache) {
      CollapsedUnderflow(start, count, scroll);
    }
  }

  lemma UnderflowCollapsed(start: Starts, count: nat, scroll: real, remaining: real, cache: real)
    requires Monotone(start) && scroll >= 0.0 && remaining >= 0.0 && cache >= 0.0
    requires CachedEnd(start, count, scroll, remaining, cache) < FirstCached(start, count, scroll, cache)
    ensures Collapsed(start, count, scroll, remaining, cache)
  {
    var e, g := CachedEnd(start, count, scroll, remaining, cache), FirstCached(start, count, scroll, cache);
    ScanMeaning(start, scroll + (remaining + cache), false, 0, count);
    ScanMeaning(start, scroll - cache, true, 0, count);
    assert !Before(start, scroll + (remaining + cache), false, e);
    if g < count { assert Before(start, scroll - cache, true, g); }
    assert NoLater(start, e, g) && start(g) <= scroll - cache;
    assert NoLater(start, 1, count);
    assert e < g <= count && start(e) == scroll && start(g) == scroll;
  }

  lemma CollapsedUnderflow(start: Starts, count: nat, scroll: real)
    requires Monotone(start) && Collapsed(start, count, scroll, 0.0, 0.0)
    ensures CachedEnd(start, count, scroll, 0.0, 0.0) < FirstCached(start, count, scroll, 0.0)
  {
    var i: nat, j: nat :| i < j <= count && start(i) == scroll && start(j) == scroll;
    ScanMeaning(start, scroll, false, 0, count);
    ScanMeaning(start, scroll, true, 0, count);
    assert !Before(start, scroll, false, i);
    assert CachedEnd(start, count, scroll, 0.0, 0.0) <= i;
    if scroll < start(count) { assert Before(start, scroll, true, j); }
  }

  /** Exact products never collapse: the starts are strictly increasing. */
  lemma NeverCollapsed(start: Starts, count: nat, scroll: real, remaining: real, cache: real)
    requires forall i: nat, j: nat | i < j :: start(i) < start(j)
    ensures !Collapsed(start, count, scroll, remaining, cache)
  {
  }

  const TWO_53: nat := 0x20_0000_0000_0000

  /** Extent 1.0 with the first index that no double can hold rounded to its even neighbour. */
  function RoundedStart(i: nat): real {
    if i == TWO_53 + 1 then TWO_53 as real else i as real
  }

  /** With rounded starts the cached range of an empty window can end before it begins. */
  lemma RoundingCollapses()
    ensures Monotone(RoundedStart)
    ensures CachedEnd(RoundedStart, TWO_53 + 2, TWO_53 as real, 0.0, 0.0)
            < FirstCached(RoundedStart, TWO_53 + 2, TWO_53 as real, 0.0)
  {
    assert Monotone(RoundedStart);
    var i: nat, j: nat := TWO_53, TWO_53 + 1;
    assert i < j <= TWO_53 + 2 && RoundedStart(i) == TWO_53 as real && RoundedStart(j) == TWO_53 as real;
    CachedUnderflow(RoundedStart, TWO_53 + 2, TWO_53 as real, 0.0, 0.0);
  }

  /** Hit testing finds the one visible item that contains the position. */
  function ItemAt(start: Starts, count: nat, scroll: real, position: real): nat {
    var past := Scan(start, scroll + position, true, 0, count);
    if past == 0 then count else past - 1
  }

  predicate Contains(start: Starts, scroll: real, position: real, i: nat) {
    start(i) <= scroll + position < start(i + 1)
  }

  lemma EndsBefore(start: Starts, i: nat, k: nat)
    requires Monotone(start)
    ensures i < k ==> start(i + 1) <= start(k)
  {
    if i < k { assert NoLater(start, i + 1, k); }
  }

  lemma ItemAtMeaning(start: Starts, count: nat, scroll: real, remaining: real, position: real)
    requires Monotone(start) && scroll >= 0.0 && remaining >= 0.0
    requires 0.0 <= position < VisibleExtent(start, count, scroll, remaining)
    ensures var k := ItemAt(start, count, scroll, position);
            FirstVisible(start, count, scroll) <= k < VisibleEnd(start, count, scroll, remaining)
            && Contains(start, scroll, position, k) && forall i: nat | Contains(start, scroll, position, i) :: i == k
  {
    ScanMeaning(start, scroll + position, true, 0, count);
    var k := ItemAt(start, count, scroll, position);
    assert count != 0 && Before(start, scroll + position, true, 0);
    assert Before(start, scroll + position, true, k);
    if k + 1 < count { assert !Before(start, scroll + position, true, k + 1); }
    assert Contains(start, scroll, position, k);
    VisibleExactly(start, count, scroll, remaining);
    assert Meets(start, scroll, VisibleExtent(start, count, scroll, remaining), k);
    forall i: nat | Contains(start, scroll, position, i) ensures i == k {
      EndsBefore(start, i, k);
      EndsBefore(start, k, i);
    }
  }
}
