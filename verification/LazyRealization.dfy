/**
 Keyed realization of lazy list children (include/dui/views.hpp): elements move between mounted,
 dormant and unmounted, and a bounded bucket of dormant elements evicts those that left first.
 */
module LazyRealization {
  import opened Common

  type Key = nat
  datatype Element = Element(id: nat, key: Key)

  // ---------------------------------------------------------------- filters

  /** The elements whose key is among `keys`, in order. */
  function Within(s: seq<Element>, keys: set<Key>): seq<Element> {
    if s == [] then []
    else (if s[0].key in keys then [s[0]] else []) + Within(s[1..], keys)
  }

  /** The others, in order. */
  function Without(s: seq<Element>, keys: set<Key>): seq<Element> {
    if s == [] then []
    else (if s[0].key in keys then [] else [s[0]]) + Without(s[1..], keys)
  }

  lemma {:induction false} FiltersHave(s: seq<Element>, keys: set<Key>)
    ensures forall e :: e in Within(s, keys) <==> e in s && e.key in keys
    ensures forall e :: e in Without(s, keys) <==> e in s && e.key !in keys
  {
    if s != [] {
      FiltersHave(s[1..], keys);
      assert s == [s[0]] + s[1..];
    }
  }

  lemma {:induction false} WithinConcat(a: seq<Element>, b: seq<Element>, keys: set<Key>)
    ensures Within(a + b, keys) == Within(a, keys) + Within(b, keys)
  {
    if a == [] {
      EmptyPrefix(b);
    } else {
      assert (a + b)[1..] == a[1..] + b;
      WithinConcat(a[1..], b, keys);
      Associate(if a[0].key in keys then [a[0]] else [], Within(a[1..], keys), Within(b, keys));
    }
  }

  lemma {:induction false} WithoutConcat(a: seq<Element>, b: seq<Element>, keys: set<Key>)
    ensures Without(a + b, keys) == Without(a, keys) + Without(b, keys)
  {
    if a == [] {
      EmptyPrefix(b);
    } else {
      assert (a + b)[1..] == a[1..] + b;
      WithoutConcat(a[1..], b, keys);
      Associate(if a[0].key in keys then [] else [a[0]], Without(a[1..], keys), Without(b, keys));
    }
  }

  /** A filter and its complement split a sequence. */
  lemma {:induction false} FilterSplits(s: seq<Element>, keys: set<Key>)
    ensures multiset(Within(s, keys)) + multiset(Without(s, keys)) == multiset(s)
  {
    if s != [] {
      FilterSplits(s[1..], keys);
      assert s == [s[0]] + s[1..];
    }
  }

  lemma FiltersSnoc(s: seq<Element>, e: Element, keys: set<Key>)
    ensures Within(s + [e], keys) == Within(s, keys) + if e.key in keys then [e] else []
    ensures Without(s + [e], keys) == Without(s, keys) + if e.key in keys then [] else [e]
  {
    WithinConcat(s, [e], keys);
    WithoutConcat(s, [e], keys);
  }

  // ---------------------------------------------------------------- order of departure

  /** Departure times never decrease along `s` and lie between `low` and `high`. */
  predicate Departed(s: seq<Element>, left: map<nat, nat>, low: nat, high: nat) {
    s == [] || (s[0].id in left && low <= left[s[0].id] <= high && Departed(s[1..], left, left[s[0].id], high))
  }

  /** In terms of positions: the element at the front left no later than any other. */
  lemma {:induction false} DepartedAt(s: seq<Element>, left: map<nat, nat>, low: nat, high: nat, i: nat, j: nat)
    requires Departed(s, left, low, high) && i <= j < |s|
    ensures s[i].id in left && s[j].id in left && low <= left[s[i].id] <= left[s[j].id] <= high
  {
    if i > 0 {
      DepartedAt(s[1..], left, left[s[0].id], high, i - 1, j - 1);
    } else if j > 0 {
      DepartedAt(s[1..], left, left[s[0].id], high, 0, j - 1);
    }
  }

  lemma {:induction false} DepartedWider(s: seq<Element>, left: map<nat, nat>, low: nat, high: nat, low': nat,
                                         high': nat)
    requires Departed(s, left, low, high) && low' <= low && high <= high'
    ensures Departed(s, left, low', high')
  {
    if s != [] { DepartedWider(s[1..], left, left[s[0].id], high, left[s[0].id], high'); }
  }

  lemma {:induction false} DepartedSuffix(s: seq<Element>, left: map<nat, nat>, low: nat, high: nat, from: nat)
    requires Departed(s, left, low, high) && from <= |s|
    ensures Departed(s[from..], left, low, high)
  {
    if from == 0 {
      assert s[0..] == s;
    } else {
      DepartedSuffix(s[1..], left, left[s[0].id], high, from - 1);
      assert s[1..][from - 1..] == s[from..];
      DepartedWider(s[from..], left, left[s[0].id], high, low, high);
    }
  }

  lemma {:induction false} DepartedFilters(s: seq<Element>, left: map<nat, nat>, low: nat, high: nat, keys: set<Key>)
    requires Departed(s, left, low, high)
    ensures Departed(Within(s, keys), left, low, high) && Departed(Without(s, keys), left, low, high)
  {
    if s != [] {
      var time, a, b := left[s[0].id], Within(s[1..], keys), Without(s[1..], keys);
      DepartedFilters(s[1..], left, time, high, keys);
      if s[0].key in keys {
        assert ([s[0]] + a)[1..] == a && [] + b == b;
        DepartedWider(b, left, time, high, low, high);
      } else {
        assert ([s[0]] + b)[1..] == b && [] + a == a;
        DepartedWider(a, left, time, high, low, high);
      }
    }
  }

  /** Earlier departures followed by departures at one later time. */
  lemma {:induction false} DepartedConcat(a: seq<Element>, b: seq<Element>, left: map<nat, nat>, low: nat, time: nat)
    requires Departed(a, left, low, time) && Departed(b, left, time, time) && low <= time
    ensures Departed(a + b, left, low, time)
  {
    if a == [] {
      EmptyPrefix(b);
      DepartedWider(b, left, time, time, low, time);
    } else {
      DepartedConcat(a[1..], b, left, left[a[0].id], time);
      assert (a + b)[1..] == a[1..] + b;
    }
  }

  // ---------------------------------------------------------------- distinct keys

  function Keys(s: seq<Element>): set<Key> {
    if s == [] then {} else {s[0].key} + Keys(s[1..])
  }

  predicate DistinctKeys(s: seq<Element>) {
    s == [] || (s[0].key !in Keys(s[1..]) && DistinctKeys(s[1..]))
  }

  lemma {:induction false} KeysHave(s: seq<Element>)
    ensures forall e | e in s :: e.key in Keys(s)
    ensures forall k | k in Keys(s) :: exists i :: 0 <= i < |s| && s[i].key == k
  {
    if s != [] {
      KeysHave(s[1..]);
      forall k | k in Keys(s) ensures exists i :: 0 <= i < |s| && s[i].key == k {
        if k == s[0].key {
          assert s[0].key == k;
        } else {
          var i :| 0 <= i < |s[1..]| && s[1..][i].key == k;
          assert s[i + 1].key == k;
        }
      }
    }
  }

  /** In terms of positions: no two elements share a key. */
  lemma {:induction false} DistinctAt(s: seq<Element>, i: nat, j: nat)
    requires DistinctKeys(s) && i < j < |s|
    ensures s[i].key != s[j].key
  {
    if i > 0 {
      DistinctAt(s[1..], i - 1, j - 1);
    } else {
      KeysHave(s[1..]);
      assert s[1..][j - 1] in s[1..];
    }
  }

  lemma {:induction false} KeysConcat(a: seq<Element>, b: seq<Element>)
    ensures Keys(a + b) == Keys(a) + Keys(b)
    ensures DistinctKeys(a + b) <==> DistinctKeys(a) && DistinctKeys(b) && Keys(a) !! Keys(b)
  {
    if a == [] {
      EmptyPrefix(b);
    } else {
      assert (a + b)[1..] == a[1..] + b;
      KeysConcat(a[1..], b);
    }
  }

  lemma {:induction false} KeysWithin(s: seq<Element>, keys: set<Key>)
    ensures Keys(Within(s, keys)) == Keys(s) * keys
    ensures DistinctKeys(s) ==> DistinctKeys(Within(s, keys))
  {
    if s != [] {
      var a := Within(s[1..], keys);
      KeysWithin(s[1..], keys);
      assert [] + a == a && ([s[0]] + a)[1..] == a;
    }
  }

  lemma {:induction false} KeysWithout(s: seq<Element>, keys: set<Key>)
    ensures Keys(Without(s, keys)) == Keys(s) - keys
    ensures DistinctKeys(s) ==> DistinctKeys(Without(s, keys))
  {
    if s != [] {
      var b := Without(s[1..], keys);
      KeysWithout(s[1..], keys);
      assert [] + b == b && ([s[0]] + b)[1..] == b;
    }
  }

  lemma KeysFilters(s: seq<Element>, keys: set<Key>)
    ensures Keys(Within(s, keys)) == Keys(s) * keys && Keys(Without(s, keys)) == Keys(s) - keys
    ensures DistinctKeys(s) ==> DistinctKeys(Within(s, keys)) && DistinctKeys(Without(s, keys))
  {
    KeysWithin(s, keys);
    KeysWithout(s, keys);
  }

  lemma KeysSuffix(s: seq<Element>, from: nat)
    requires from <= |s| && DistinctKeys(s)
    ensures DistinctKeys(s[from..]) && Keys(s[from..]) <= Keys(s)
  {
    assert s == s[..from] + s[from..];
    KeysConcat(s[..from], s[from..]);
  }

  function KeySet(keys: seq<Key>): set<Key> {
    if keys == [] then {} else KeySet(keys[..|keys| - 1]) + {keys[|keys| - 1]}
  }

  lemma {:induction false} KeySetHas(keys: seq<Key>, k: Key)
    ensures k in KeySet(keys) <==> k in keys
  {
    if keys != [] {
      KeySetHas(keys[..|keys| - 1], k);
      assert keys == keys[..|keys| - 1] + [keys[|keys| - 1]];
    }
  }

  predicate DistinctSeq(keys: seq<Key>) {
    keys == [] || (keys[|keys| - 1] !in KeySet(keys[..|keys| - 1]) && DistinctSeq(keys[..|keys| - 1]))
  }

  lemma {:induction false} DistinctPrefix(keys: seq<Key>, end: nat)
    requires DistinctSeq(keys) && end <= |keys|
    ensures DistinctSeq(keys[..end])
  {
    if end == |keys| {
      assert keys[..end] == keys;
    } else {
      DistinctPrefix(keys[..|keys| - 1], end);
      assert keys[..|keys| - 1][..end] == keys[..end];
    }
  }

  lemma {:induction false} DistinctSlice(keys: seq<Key>, first: nat, end: nat)
    requires DistinctSeq(keys) && first <= end <= |keys|
    ensures DistinctSeq(keys[first..end]) && KeySet(keys[first..end]) <= KeySet(keys[..end])
    decreases end
  {
    if first < end {
      DistinctSlice(keys, first, end - 1);
      assert keys[first..end][..end - first - 1] == keys[first..end - 1];
      DistinctPrefix(keys, end);
      assert keys[..end][..end - 1] == keys[..end - 1];
    }
  }

  lemma KeySetSnoc(keys: seq<Key>, i: nat)
    requires i < |keys| && DistinctSeq(keys)
    ensures KeySet(keys[..i + 1]) == KeySet(keys[..i]) + {keys[i]} && keys[i] !in KeySet(keys[..i])
  {
    assert keys[..i + 1][..i] == keys[..i];
    DistinctPrefix(keys, i + 1);
  }

  // ---------------------------------------------------------------- vacated slots

  /** The elements still present in a vector some of whose pointers were moved away. */
  function Present(slots: seq<Option<Element>>): seq<Element> {
    if slots == [] then []
    else (match slots[0] case Some(e) => [e] case None => []) + Present(slots[1..])
  }

  lemma {:induction false} PresentConcat(a: seq<Option<Element>>, b: seq<Option<Element>>)
    ensures Present(a + b) == Present(a) + Present(b)
  {
    if a == [] {
      EmptyPrefix(b);
    } else {
      assert (a + b)[1..] == a[1..] + b;
      PresentConcat(a[1..], b);
      Associate(match a[0] case Some(e) => [e] case None => [], Present(a[1..]), Present(b));
    }
  }

  lemma PresentSnoc(slots: seq<Option<Element>>, i: nat)
    requires i < |slots|
    ensures Present(slots[..i + 1]) == Present(slots[..i]) + (match slots[i] case Some(e) => [e] case None => [])
  {
    assert slots[..i + 1] == slots[..i] + [slots[i]];
    PresentConcat(slots[..i], [slots[i]]);
  }

  /** The slots of `s` after the elements with the given keys were moved away. */
  predicate Vacated(slots: seq<Option<Element>>, s: seq<Element>, taken: set<Key>) {
    |slots| == |s| && forall i | 0 <= i < |s| :: slots[i] == if s[i].key in taken then None else Some(s[i])
  }

  lemma {:induction false} PresentWithout(slots: seq<Option<Element>>, s: seq<Element>, taken: set<Key>)
    requires Vacated(slots, s, taken)
    ensures Present(slots) == Without(s, taken)
  {
    if s != [] {
      PresentWithout(slots[1..], s[1..], taken);
    }
  }

  lemma {:induction false} TakeSlot(slots: seq<Option<Element>>, i: nat)
    requires i < |slots| && slots[i].Some?
    ensures multiset(Present(slots)) == multiset(Present(slots[i := None])) + multiset{slots[i].value}
  {
    var after := slots[i := None];
    if i == 0 {
      assert after[1..] == slots[1..];
    } else {
      assert after[1..] == slots[1..][i - 1 := None];
      TakeSlot(slots[1..], i - 1);
    }
  }

  lemma {:induction false} WithoutNone(s: seq<Element>)
    ensures Without(s, {}) == s
  {
    if s != [] { WithoutNone(s[1..]); }
  }

  // ---------------------------------------------------------------- the state of a lazy element

  /** Elements are numbered in the order of their creation. */
  predicate Registered(created: seq<Element>, count: nat) {
    |created| == count && forall i | 0 <= i < |created| :: created[i].id == i
  }

  /** New elements get consecutive ids. */
  predicate Numbered(made: seq<Element>, from: nat, to: nat) {
    from + |made| == to && forall i | 0 <= i < |made| :: made[i].id == from + i
  }

  lemma NumberedConcat(made: seq<Element>, more: seq<Element>, from: nat, middle: nat, to: nat)
    requires Numbered(made, from, middle) && Numbered(more, middle, to)
    ensures Numbered(made + more, from, to)
  {
  }

  /** How many elements a bucket must drop. */
  function Excess(size: nat, limit: Option<nat>): (r: nat)
    ensures r <= size
  {
    if limit.Some? && size > limit.value then size - limit.value else 0
  }

  function Smaller(size: nat, limit: Option<nat>): nat {
    match limit
    case None => size
    case Some(most) => if size < most then size else most
  }

  /** Mounted and dormant keys are distinct; dormant ones are worth keeping and within the limit. */
  ghost predicate BucketOk(children: seq<Element>, kept: seq<Element>, keep: set<Key>, limit: Option<nat>) {
    && DistinctKeys(kept) && DistinctKeys(children) && Keys(kept) !! Keys(children)
    && Keys(kept) <= keep
    && (limit.Some? ==> |kept| <= limit.value)
  }

  /** Every element ever created is mounted, dormant or unmounted, exactly once. */
  ghost predicate Partition(children: seq<Element>, kept: seq<Element>, unmounted: seq<Element>, created: seq<Element>,
                            count: nat) {
    && Registered(created, count)
    && multiset(children) + multiset(kept) + multiset(unmounted) == multiset(created)
  }

  lemma {:induction false} RegisteredOnce(created: seq<Element>, count: nat, e: Element)
    requires Registered(created, count) && e in created
    ensures multiset(created)[e] == 1
  {
    var n := |created| - 1;
    assert created == created[..n] + [created[n]];
    if e == created[n] {
      assert e !in created[..n];
    } else {
      assert e in created[..n];
      RegisteredOnce(created[..n], n, e);
    }
  }

  /** Each element that was ever created is in exactly one of the three places, exactly once. */
  lemma PlacedOnce(children: seq<Element>, kept: seq<Element>, unmounted: seq<Element>, created: seq<Element>,
                   count: nat, e: Element)
    requires Partition(children, kept, unmounted, created, count) && e in created
    ensures multiset(children)[e] + multiset(kept)[e] + multiset(unmounted)[e] == 1
  {
    RegisteredOnce(created, count, e);
    assert (multiset(children) + multiset(kept) + multiset(unmounted))[e] == 1;
  }

  /** The state with these vectors, once the bucket is cut to its limit, is in order. */
  ghost predicate Installable(next: seq<Element>, nextKept: seq<Element>, unmounted: seq<Element>,
                              created: seq<Element>, count: nat,
                              keep: set<Key>, limit: Option<nat>, left: map<nat, nat>, clock: nat) {
    var excess := Excess(|nextKept|, limit);
    && BucketOk(next, nextKept[excess..], keep, limit)
    && Departed(nextKept[excess..], left, 0, clock)
    && Partition(next, nextKept[excess..], unmounted + nextKept[..excess], created, count)
  }

  // ---------------------------------------------------------------- one realization, on values

  predicate Absent(former: seq<Element>, key: Key) {
    forall x | x in former :: x.key != key
  }

  /** How many of the first `n` wanted keys need a new element. */
  function News(wanted: seq<Key>, n: nat, former: seq<Element>): nat
    requires n <= |wanted|
  {
    if n == 0 then 0 else News(wanted, n - 1, former) + if Absent(former, wanted[n - 1]) then 1 else 0
  }

  /** A reused element keeps its identity; otherwise it is new, with the next number. */
  predicate Chosen(e: Element, key: Key, former: seq<Element>, newId: nat) {
    e.key == key && if Absent(former, key) then e.id == newId else e in former
  }

  predicate ChosenUpTo(next: seq<Element>, wanted: seq<Key>, n: nat, former: seq<Element>, firstNew: nat)
    requires n <= |wanted|
  {
    && |next| == n
    && forall i | 0 <= i < n :: Chosen(next[i], wanted[i], former, firstNew + News(wanted, i, former))
  }

  predicate AllChosen(next: seq<Element>, wanted: seq<Key>, former: seq<Element>, firstNew: nat) {
    ChosenUpTo(next, wanted, |wanted|, former, firstNew)
  }

  lemma ChosenSnoc(next: seq<Element>, child: Element, wanted: seq<Key>, i: nat, former: seq<Element>, firstNew: nat)
    requires i < |wanted| && ChosenUpTo(next, wanted, i, former, firstNew)
    requires Chosen(child, wanted[i], former, firstNew + News(wanted, i, former))
    ensures ChosenUpTo(next + [child], wanted, i + 1, former, firstNew)
  {
  }

  /** The elements have these keys, in order. */
  predicate Carries(children: seq<Element>, keys: seq<Key>) {
    |children| == |keys| && forall i | 0 <= i < |keys| :: children[i].key == keys[i]
  }

  lemma ChosenCarries(next: seq<Element>, wanted: seq<Key>, former: seq<Element>, firstNew: nat)
    requires AllChosen(next, wanted, former, firstNew)
    ensures Carries(next, wanted)
  {
    forall i | 0 <= i < |wanted| ensures next[i].key == wanted[i] {
      assert Chosen(next[i], wanted[i], former, firstNew + News(wanted, i, former));
    }
  }

  lemma {:induction false} CarriedKeys(next: seq<Element>, wanted: seq<Key>)
    requires Carries(next, wanted) && DistinctSeq(wanted)
    ensures DistinctKeys(next) && Keys(next) == KeySet(wanted)
  {
    if wanted != [] {
      var n := |wanted| - 1;
      CarriedKeys(next[..n], wanted[..n]);
      assert next == next[..n] + [next[n]];
      assert [next[n]][1..] == [];
      KeysConcat(next[..n], [next[n]]);
    }
  }

  /** The elements that are not wanted any more: dormant ones first. */
  function Leaving(mounted: seq<Element>, dormant: seq<Element>, wanted: seq<Key>): seq<Element> {
    Without(dormant, KeySet(wanted)) + Without(mounted, KeySet(wanted))
  }

  function Retained(mounted: seq<Element>, dormant: seq<Element>, wanted: seq<Key>, keep: set<Key>): seq<Element> {
    Within(Leaving(mounted, dormant, wanted), keep)
  }

  /** Where the elements are, the unmounted ones in the order of unmounting, and the number of the next one. */
  datatype Places = Places(mounted: seq<Element>, dormant: seq<Element>, unmounted: seq<Element>, nextId: nat)

  /** What realizing the `wanted` keys makes of the elements. */
  predicate Realizes(was: Places, wanted: seq<Key>, keep: set<Key>, limit: Option<nat>, now: Places) {
    var leaving := Leaving(was.mounted, was.dormant, wanted);
    var retained := Within(leaving, keep);
    var excess := Excess(|retained|, limit);
    && AllChosen(now.mounted, wanted, was.mounted + was.dormant, was.nextId)
    && now.nextId == was.nextId + News(wanted, |wanted|, was.mounted + was.dormant)
    && now.dormant == retained[excess..]
    && now.unmounted == was.unmounted + Without(leaving, keep) + retained[..excess]
  }

  lemma {:induction false} AllWithin(s: seq<Element>, keys: set<Key>)
    requires Keys(s) <= keys
    ensures Within(s, keys) == s && Without(s, keys) == []
  {
    if s != [] { AllWithin(s[1..], keys); }
  }

  lemma {:induction false} AllWithout(s: seq<Element>, keys: set<Key>)
    requires Keys(s) !! keys
    ensures Without(s, keys) == s
  {
    if s != [] { AllWithout(s[1..], keys); }
  }

  lemma NoneLeave(mounted: seq<Element>, dormant: seq<Element>, wanted: seq<Key>)
    requires DistinctSeq(wanted) && Keys(dormant) !! Keys(mounted) && Carries(mounted, wanted)
    ensures Leaving(mounted, dormant, wanted) == dormant
  {
    CarriedKeys(mounted, wanted);
    AllWithin(mounted, KeySet(wanted));
    AllWithout(dormant, KeySet(wanted));
  }

  lemma {:induction false} NoneNew(mounted: seq<Element>, wanted: seq<Key>, n: nat, former: seq<Element>)
    requires Carries(mounted, wanted) && n <= |wanted| && forall e | e in mounted :: e in former
    ensures News(wanted, n, former) == 0
  {
    if n > 0 {
      NoneNew(mounted, wanted, n - 1, former);
      assert mounted[n - 1] in former;
    }
  }

  lemma NoneChange(mounted: seq<Element>, wanted: seq<Key>, former: seq<Element>, firstNew: nat)
    requires Carries(mounted, wanted) && forall e | e in mounted :: e in former
    ensures AllChosen(mounted, wanted, former, firstNew)
  {
    forall i | 0 <= i < |wanted| ensures Chosen(mounted[i], wanted[i], former, firstNew + News(wanted, i, former)) {
      assert mounted[i] in former;
    }
  }

  lemma NoneCut(s: seq<Element>, gone: seq<Element>)
    ensures s[0..] == s && gone + [] + s[..0] == gone
  {
  }

  /** Realizing what is mounted moves nothing. */
  lemma NothingMoves(p: Places, wanted: seq<Key>, keep: set<Key>, limit: Option<nat>)
    requires BucketOk(p.mounted, p.dormant, keep, limit) && DistinctSeq(wanted) && Carries(p.mounted, wanted)
    ensures Realizes(p, wanted, keep, limit, p)
  {
    NoneLeave(p.mounted, p.dormant, wanted);
    NoneNew(p.mounted, wanted, |wanted|, p.mounted + p.dormant);
    NoneChange(p.mounted, wanted, p.mounted + p.dormant, p.nextId);
    AllWithin(p.dormant, keep);
    NoneCut(p.dormant, p.unmounted);
  }

  lemma SameKeySame(s: seq<Element>, e: Element, f: Element)
    requires DistinctKeys(s) && e in s && f in s && e.key == f.key
    ensures e == f
  {
    var i :| 0 <= i < |s| && s[i] == e;
    var j :| 0 <= j < |s| && s[j] == f;
    if i < j { DistinctAt(s, i, j); }
    if j < i { DistinctAt(s, j, i); }
  }

  /** A realization has one outcome. */
  lemma RealizedOnce(was: Places, wanted: seq<Key>, keep: set<Key>, limit: Option<nat>, now: Places, other: Places)
    requires DistinctKeys(was.mounted + was.dormant)
    requires Realizes(was, wanted, keep, limit, now) && Realizes(was, wanted, keep, limit, other)
    ensures now == other
  {
    var former := was.mounted + was.dormant;
    forall i | 0 <= i < |wanted| ensures now.mounted[i] == other.mounted[i] {
      var newId := was.nextId + News(wanted, i, former);
      assert Chosen(now.mounted[i], wanted[i], former, newId) && Chosen(other.mounted[i], wanted[i], former, newId);
      if !Absent(former, wanted[i]) { SameKeySame(former, now.mounted[i], other.mounted[i]); }
    }
    assert now.mounted == other.mounted;
  }

  /** Without a limit an element that is worth keeping is kept, mounted or dormant. */
  lemma WorthKeeping(was: Places, wanted: seq<Key>, keep: set<Key>, now: Places, e: Element)
    requires Realizes(was, wanted, keep, None, now) && DistinctKeys(was.mounted + was.dormant)
    requires e in was.mounted + was.dormant && e.key in keep
    ensures e in now.mounted + now.dormant
  {
    KeySetHas(wanted, e.key);
    if e.key in wanted {
      var i :| 0 <= i < |wanted| && wanted[i] == e.key;
      assert Chosen(now.mounted[i], wanted[i], was.mounted + was.dormant,
                    was.nextId + News(wanted, i, was.mounted + was.dormant));
      assert now.mounted[i] in was.mounted + was.dormant;
      SameKeySame(was.mounted + was.dormant, e, now.mounted[i]);
    } else {
      FiltersHave(was.mounted, KeySet(wanted));
      FiltersHave(was.dormant, KeySet(wanted));
      FiltersHave(Leaving(was.mounted, was.dormant, wanted), keep);
      assert e in now.dormant;
    }
  }

  /** What is not wanted keeps distinct keys, none of them wanted. */
  lemma LeavingKeys(mounted: seq<Element>, dormant: seq<Element>, wanted: seq<Key>)
    requires DistinctKeys(mounted) && DistinctKeys(dormant) && Keys(dormant) !! Keys(mounted)
    ensures DistinctKeys(Leaving(mounted, dormant, wanted)) && Keys(Leaving(mounted, dormant, wanted)) !! KeySet(wanted)
  {
    KeysFilters(mounted, KeySet(wanted));
    KeysFilters(dormant, KeySet(wanted));
    KeysConcat(Without(dormant, KeySet(wanted)), Without(mounted, KeySet(wanted)));
  }

  lemma RealizedBucket(mounted: seq<Element>, dormant: seq<Element>, wanted: seq<Key>, keep: set<Key>,
                       limit: Option<nat>, next: seq<Element>, firstNew: nat)
    requires DistinctKeys(mounted) && DistinctKeys(dormant) && Keys(dormant) !! Keys(mounted)
    requires DistinctSeq(wanted) && AllChosen(next, wanted, mounted + dormant, firstNew)
    ensures var retained := Retained(mounted, dormant, wanted, keep);
            BucketOk(next, retained[Excess(|retained|, limit)..], keep, limit)
  {
    var retained := Retained(mounted, dormant, wanted, keep);
    LeavingKeys(mounted, dormant, wanted);
    KeysFilters(Leaving(mounted, dormant, wanted), keep);
    KeysSuffix(retained, Excess(|retained|, limit));
    ChosenCarries(next, wanted, mounted + dormant, firstNew);
    CarriedKeys(next, wanted);
  }

  ghost function Ids(s: seq<Element>): set<nat> {
    set e | e in s :: e.id
  }

  /** The elements of `gone` leave now. */
  ghost function Depart(left: map<nat, nat>, gone: seq<Element>, time: nat): map<nat, nat> {
    map id | id in left.Keys + Ids(gone) :: if id in Ids(gone) then time else left[id]
  }

  lemma {:induction false} NowGone(left: map<nat, nat>, gone: seq<Element>, time: nat, s: seq<Element>)
    requires forall e | e in s :: e.id in Ids(gone)
    ensures Departed(s, Depart(left, gone, time), time, time)
  {
    if s != [] {
      assert s[0] in s;
      NowGone(left, gone, time, s[1..]);
    }
  }

  lemma {:induction false} DormantStay(s: seq<Element>, gone: seq<Element>, left: map<nat, nat>, low: nat, high: nat,
                                       time: nat)
    requires Departed(s, left, low, high) && forall e | e in s :: e.id !in Ids(gone)
    ensures Departed(s, Depart(left, gone, time), low, high)
  {
    if s != [] {
      assert s[0] in s;
      DormantStay(s[1..], gone, left, left[s[0].id], high, time);
    }
  }

  /** What has just left did so now; what was dormant before keeps its time. */
  ghost predicate Times(kept: seq<Element>, mounted: seq<Element>, dormant: seq<Element>, left: map<nat, nat>,
                        later: map<nat, nat>, now: nat) {
    forall e | e in kept :: e.id in later && (e in mounted ==> later[e.id] == now) &&
                            (e in dormant ==> e.id in left && later[e.id] == left[e.id])
  }

  lemma LeavingOrder(stay: seq<Element>, gone: seq<Element>, dormant: seq<Element>, wanted: seq<Key>, keep: set<Key>,
                     later: map<nat, nat>, clock: nat)
    requires stay == Without(dormant, KeySet(wanted)) && Departed(dormant, later, 0, clock)
             && Departed(gone, later, clock + 1, clock + 1)
    ensures Departed(Within(stay + gone, keep), later, 0, clock + 1)
  {
    DepartedFilters(dormant, later, 0, clock, KeySet(wanted));
    DepartedWider(stay, later, 0, clock, 0, clock + 1);
    DepartedConcat(stay, gone, later, 0, clock + 1);
    DepartedFilters(stay + gone, later, 0, clock + 1, keep);
  }

  lemma LeavingTimes(mounted: seq<Element>, dormant: seq<Element>, wanted: seq<Key>, keep: set<Key>,
                     left: map<nat, nat>, clock: nat)
    requires Departed(dormant, left, 0, clock) && (forall x, y | x in dormant && y in mounted :: x.id != y.id)
    ensures Times(Retained(mounted, dormant, wanted, keep), mounted, dormant, left,
                  Depart(left, Without(mounted, KeySet(wanted)), clock + 1), clock + 1)
  {
    var gone, stay := Without(mounted, KeySet(wanted)), Without(dormant, KeySet(wanted));
    var later := Depart(left, gone, clock + 1);
    FiltersHave(mounted, KeySet(wanted));
    FiltersHave(dormant, KeySet(wanted));
    FiltersHave(stay + gone, keep);
    forall e | e in Within(stay + gone, keep)
      ensures e.id in later && (e in mounted ==> later[e.id] == clock + 1)
              && (e in dormant ==> e.id in left && later[e.id] == left[e.id])
    {
      if e in gone {
        assert e.id in Ids(gone);
      } else {
        assert e in dormant;
        var i :| 0 <= i < |dormant| && dormant[i] == e;
        DepartedAt(dormant, left, 0, clock, i, i);
        assert e.id !in Ids(gone);
      }
    }
  }

  lemma RealizedOrder(mounted: seq<Element>, dormant: seq<Element>, wanted: seq<Key>, keep: set<Key>,
                      left: map<nat, nat>, clock: nat)
    returns (later: map<nat, nat>)
    requires Departed(dormant, left, 0, clock) && (forall x, y | x in dormant && y in mounted :: x.id != y.id)
    ensures Departed(Retained(mounted, dormant, wanted, keep), later, 0, clock + 1)
    ensures Times(Retained(mounted, dormant, wanted, keep), mounted, dormant, left, later, clock + 1)
  {
    var gone, stay := Without(mounted, KeySet(wanted)), Without(dormant, KeySet(wanted));
    later := Depart(left, gone, clock + 1);
    FiltersHave(mounted, KeySet(wanted));
    assert forall e | e in gone :: e.id in Ids(gone);
    DormantStay(dormant, gone, left, 0, clock, clock + 1);
    NowGone(left, gone, clock + 1, gone);
    LeavingOrder(stay, gone, dormant, wanted, keep, later, clock);
    LeavingTimes(mounted, dormant, wanted, keep, left, clock);
  }

  /** Elements in different places have different ids. */
  lemma SameIdSame(children: seq<Element>, kept: seq<Element>, unmounted: seq<Element>, created: seq<Element>,
                   count: nat)
    requires Partition(children, kept, unmounted, created, count) && Keys(kept) !! Keys(children)
    ensures forall x, y | x in kept && y in children :: x.id != y.id
  {
    KeysHave(kept);
    KeysHave(children);
    forall x, y | x in kept && y in children ensures x.id != y.id {
      assert x in multiset(created) && y in multiset(created);
      assert x in created && y in created;
    }
  }

  /** Retained, dropped and evicted elements are together the elements that leave. */
  lemma CutSplits(leaving: seq<Element>, keep: set<Key>, next: seq<Element>, unmounted: seq<Element>, excess: nat)
    requires excess <= |Within(leaving, keep)|
    ensures var retained := Within(leaving, keep);
            multiset(next) + multiset(retained[excess..])
                + multiset(unmounted + Without(leaving, keep) + retained[..excess])
            == multiset(next) + multiset(leaving) + multiset(unmounted)
  {
    var retained, dropped := Within(leaving, keep), Without(leaving, keep);
    FilterSplits(leaving, keep);
    assert retained == retained[..excess] + retained[excess..];
    calc {
      multiset(next) + multiset(retained[excess..]) + multiset(unmounted + dropped + retained[..excess]);
      multiset(next) + multiset(retained) + multiset(dropped) + multiset(unmounted);
      multiset(next) + multiset(leaving) + multiset(unmounted);
    }
  }

  lemma RealizedPartition(mounted: seq<Element>, dormant: seq<Element>, unmounted: seq<Element>, created: seq<Element>,
                          wanted: seq<Key>, keep: set<Key>, next: seq<Element>, made: seq<Element>, excess: nat)
    requires multiset(mounted) + multiset(dormant) + multiset(unmounted) == multiset(created)
    requires multiset(next) + multiset(Leaving(mounted, dormant, wanted)) == multiset(mounted) + multiset(dormant)
             + multiset(made)
    requires excess <= |Retained(mounted, dormant, wanted, keep)|
    ensures var retained := Retained(mounted, dormant, wanted, keep);
            var dropped := Without(Leaving(mounted, dormant, wanted), keep);
            multiset(next) + multiset(retained[excess..])
                + multiset(unmounted + dropped + retained[..excess]) == multiset(created + made)
  {
    CutSplits(Leaving(mounted, dormant, wanted), keep, next, unmounted, excess);
    calc {
      multiset(next) + multiset(Leaving(mounted, dormant, wanted)) + multiset(unmounted);
      multiset(mounted) + multiset(dormant) + multiset(made) + multiset(unmounted);
      multiset(created) + multiset(made);
    }
  }

  lemma RealizedOk(mounted: seq<Element>, dormant: seq<Element>, unmounted: seq<Element>, created: seq<Element>,
                   wanted: seq<Key>, keep: set<Key>, limit: Option<nat>, next: seq<Element>, made: seq<Element>,
                   left: map<nat, nat>, clock: nat, nextKept: seq<Element>, dropped: seq<Element>, count: nat,
                       firstId: nat)
    returns (later: map<nat, nat>)
    requires DistinctKeys(mounted) && DistinctKeys(dormant) && Keys(dormant) !! Keys(mounted)
    requires DistinctSeq(wanted) && Departed(dormant, left, 0, clock)
    requires Partition(mounted, dormant, unmounted, created, firstId) && Numbered(made, firstId, count)
    requires AllChosen(next, wanted, mounted + dormant, firstId)
    requires multiset(next) + multiset(Leaving(mounted, dormant, wanted)) == multiset(mounted) + multiset(dormant)
             + multiset(made)
    requires nextKept == Retained(mounted, dormant, wanted, keep)
    requires dropped == Without(Leaving(mounted, dormant, wanted), keep)
    ensures Installable(next, nextKept, unmounted + dropped, created + made, count, keep, limit, later, clock + 1)
    ensures Times(nextKept, mounted, dormant, left, later, clock + 1)
  {
    var excess := Excess(|nextKept|, limit);
    RealizedBucket(mounted, dormant, wanted, keep, limit, next, firstId);
    SameIdSame(mounted, dormant, unmounted, created, firstId);
    later := RealizedOrder(mounted, dormant, wanted, keep, left, clock);
    DepartedSuffix(nextKept, later, 0, clock + 1, excess);
    RealizedPartition(mounted, dormant, unmounted, created, wanted, keep, next, made, excess);
  }

  /** What a new model makes of the elements: dormant ones it does not keep go, then the oldest beyond the limit. */
  function Adopted(p: Places, keep: set<Key>, limit: Option<nat>): Places {
    var retained := Within(p.dormant, keep);
    var excess := Excess(|retained|, limit);
    p.(dormant := retained[excess..], unmounted := p.unmounted + Without(p.dormant, keep) + retained[..excess])
  }

  lemma ModelOk(children: seq<Element>, kept: seq<Element>, unmounted: seq<Element>, created: seq<Element>, count: nat,
                keep: set<Key>, limit: Option<nat>, left: map<nat, nat>, clock: nat, retained: seq<Element>,
                    dropped: seq<Element>)
    requires retained == Within(kept, keep) && dropped == Without(kept, keep)
    requires DistinctKeys(kept) && DistinctKeys(children) && Keys(kept) !! Keys(children)
    requires Departed(kept, left, 0, clock) && Partition(children, kept, unmounted, created, count)
    ensures Installable(children, retained, unmounted + dropped, created, count, keep, limit, left, clock)
  {
    var excess := Excess(|retained|, limit);
    KeysFilters(kept, keep);
    KeysSuffix(retained, excess);
    DepartedFilters(kept, left, 0, clock, keep);
    DepartedSuffix(retained, left, 0, clock, excess);
    CutSplits(kept, keep, children, unmounted, excess);
  }

  // ---------------------------------------------------------------- matching and retaining

  /** Where the element with this key is, if anywhere. */
  predicate At(s: seq<Element>, key: Key, at: Option<nat>) {
    && (at.Some? ==> at.value < |s| && s[at.value].key == key)
    && forall i | 0 <= i < |s| && at != Some(i) :: s[i].key != key
  }

  function Lookup(index: map<Key, nat>, key: Key): Option<nat> {
    if key in index then Some(index[key]) else None
  }

  ghost predicate Indexes(index: map<Key, nat>, elements: seq<Element>) {
    forall k :: At(elements, k, Lookup(index, k))
  }

  method Indices(elements: seq<Element>) returns (index: map<Key, nat>)
    requires DistinctKeys(elements)
    ensures Indexes(index, elements)
  {
    index := map[];
    for i := 0 to |elements|
      invariant forall k | k in index :: index[k] < i && elements[index[k]].key == k
      invariant forall j | 0 <= j < i :: elements[j].key in index && index[elements[j].key] == j
    {
      forall j | 0 <= j < i ensures elements[j].key != elements[i].key { DistinctAt(elements, j, i); }
      index := index[elements[i].key := i];
    }
  }

  lemma NotBoth(mounted: seq<Element>, dormant: seq<Element>, key: Key, inMounted: Option<nat>, inDormant: Option<nat>)
    requires At(mounted, key, inMounted) && At(dormant, key, inDormant) && Keys(dormant) !! Keys(mounted)
    ensures inMounted.None? || inDormant.None?
  {
    KeysHave(mounted);
    KeysHave(dormant);
    assert inDormant.Some? ==> dormant[inDormant.value] in dormant;
  }

  lemma IndicesApart(previousIndices: map<Key, nat>, keptIndices: map<Key, nat>, mounted: seq<Element>,
                     dormant: seq<Element>)
    requires Indexes(previousIndices, mounted) && Indexes(keptIndices, dormant) && Keys(dormant) !! Keys(mounted)
    ensures previousIndices.Keys !! keptIndices.Keys
  {
    forall k | k in previousIndices ensures k !in keptIndices {
      NotBoth(mounted, dormant, k, Lookup(previousIndices, k), Lookup(keptIndices, k));
    }
  }

  method AllPresent(elements: seq<Element>) returns (slots: seq<Option<Element>>)
    ensures |slots| == |elements| && forall i | 0 <= i < |elements| :: slots[i] == Some(elements[i])
    ensures Present(slots) == elements
  {
    slots := [];
    for i := 0 to |elements|
      invariant |slots| == i && forall j | 0 <= j < i :: slots[j] == Some(elements[j])
    {
      slots := slots + [Some(elements[i])];
    }
    PresentWithout(slots, elements, {});
    WithoutNone(elements);
  }

  ghost function Remaining(previous: seq<Option<Element>>, kept: seq<Option<Element>>): multiset<Element> {
    multiset(Present(previous)) + multiset(Present(kept))
  }

  /** Moving the element with this key away, if it is there, leaves the rest in place. */
  lemma VacateAt(slots: seq<Option<Element>>, s: seq<Element>, taken: set<Key>, key: Key, at: Option<nat>)
    requires Vacated(slots, s, taken) && key !in taken && At(s, key, at)
    ensures at.None? ==> Vacated(slots, s, taken + {key}) && forall e | e in s :: e.key != key
    ensures at.Some? ==>
              && slots[at.value] == Some(s[at.value]) && s[at.value] in s
              && Vacated(slots[at.value := None], s, taken + {key})
              && multiset(Present(slots)) == multiset(Present(slots[at.value := None])) + multiset{s[at.value]}
  {
    if at.Some? {
      TakeSlot(slots, at.value);
      VacateOne(slots, s, taken, key, at.value);
    }
  }

  lemma VacateOne(slots: seq<Option<Element>>, s: seq<Element>, taken: set<Key>, key: Key, i: nat)
    requires Vacated(slots, s, taken) && key !in taken && At(s, key, Some(i))
    ensures slots[i] == Some(s[i]) && Vacated(slots[i := None], s, taken + {key})
  {
  }

  lemma MovedOut(before: multiset<Element>, after: multiset<Element>, others: multiset<Element>, child: Element)
    requires before == after + multiset{child}
    ensures multiset{child} + (after + others) == before + others + multiset([])
    ensures multiset{child} + (others + after) == others + before + multiset([])
  {
  }

  lemma Accumulate(next: seq<Element>, child: Element, made: seq<Element>, more: seq<Element>,
                   was: multiset<Element>, rest: multiset<Element>, total: multiset<Element>)
    requires multiset(next) + was == total + multiset(made)
    requires multiset{child} + rest == was + multiset(more)
    ensures multiset(next + [child]) + rest == total + multiset(made + more)
  {
    calc {
      multiset(next + [child]) + rest;
      multiset(next) + (multiset{child} + rest);
      multiset(next) + was + multiset(more);
      total + multiset(made + more);
    }
  }

  /** Move the element with this key out of its slot, or create it. */
  method TakeChild(key: Key, ghost taken: set<Key>, ghost mounted: seq<Element>, ghost dormant: seq<Element>,
                   inPrevious: Option<nat>, inKept: Option<nat>,
                   previous: seq<Option<Element>>, kept: seq<Option<Element>>, nextId: nat)
    returns (child: Element, previousLeft: seq<Option<Element>>, keptLeft: seq<Option<Element>>, count: nat,
             ghost made: seq<Element>)
    requires key !in taken && Vacated(previous, mounted, taken) && Vacated(kept, dormant, taken)
    requires At(mounted, key, inPrevious) && At(dormant, key, inKept) && (inPrevious.None? || inKept.None?)
    ensures Chosen(child, key, mounted + dormant, nextId) && Numbered(made, nextId, count)
    ensures count == nextId + if Absent(mounted + dormant, key) then 1 else 0
    ensures Vacated(previousLeft, mounted, taken + {key}) && Vacated(keptLeft, dormant, taken + {key})
    ensures multiset{child} + Remaining(previousLeft, keptLeft) == Remaining(previous, kept) + multiset(made)
  {
    previousLeft, keptLeft, count, made := previous, kept, nextId, [];
    VacateAt(previous, mounted, taken, key, inPrevious);
    VacateAt(kept, dormant, taken, key, inKept);
    if inPrevious.Some? {
      child := previous[inPrevious.value].value;
      previousLeft := previous[inPrevious.value := None];
      MovedOut(multiset(Present(previous)), multiset(Present(previousLeft)), multiset(Present(kept)), child);
    } else if inKept.Some? {
      child := kept[inKept.value].value;
      keptLeft := kept[inKept.value := None];
      MovedOut(multiset(Present(kept)), multiset(Present(keptLeft)), multiset(Present(previous)), child);
    } else {
      child, count := Element(nextId, key), nextId + 1;
      made := [child];
      assert multiset([child]) == multiset{child};
    }
  }

  /** The elements for the first `i` wanted keys have been taken from `all` or made. */
  ghost predicate Taken(wanted: seq<Key>, i: nat, mounted: seq<Element>, dormant: seq<Element>, all: multiset<Element>,
                        firstId: nat, next: seq<Element>, previous: seq<Option<Element>>, kept: seq<Option<Element>>,
                        count: nat, made: seq<Element>)
    requires i <= |wanted|
  {
    && ChosenUpTo(next, wanted, i, mounted + dormant, firstId) && Numbered(made, firstId, count)
    && count == firstId + News(wanted, i, mounted + dormant)
    && Vacated(previous, mounted, KeySet(wanted[..i])) && Vacated(kept, dormant, KeySet(wanted[..i]))
    && multiset(next) + Remaining(previous, kept) == all + multiset(made)
  }

  method TakeNext(wanted: seq<Key>, i: nat, ghost mounted: seq<Element>, ghost dormant: seq<Element>,
                  ghost all: multiset<Element>, previousIndices: map<Key, nat>, keptIndices: map<Key, nat>,
                  ghost firstId: nat, next: seq<Element>, previous: seq<Option<Element>>, kept: seq<Option<Element>>,
                  count: nat, ghost made: seq<Element>)
    returns (next': seq<Element>, previous': seq<Option<Element>>, kept': seq<Option<Element>>, count': nat,
             ghost made': seq<Element>)
    requires DistinctSeq(wanted) && i < |wanted|
    requires Indexes(previousIndices, mounted) && Indexes(keptIndices, dormant)
             && previousIndices.Keys !! keptIndices.Keys
    requires Taken(wanted, i, mounted, dormant, all, firstId, next, previous, kept, count, made)
    ensures Taken(wanted, i + 1, mounted, dormant, all, firstId, next', previous', kept', count', made')
  {
    KeySetSnoc(wanted, i);
    ghost var was := Remaining(previous, kept);
    var child;
    ghost var more;
    child, previous', kept', count', more := TakeChild(wanted[i], KeySet(wanted[..i]), mounted, dormant,
                                                       Lookup(previousIndices, wanted[i]),
                                                       Lookup(keptIndices, wanted[i]), previous, kept, count);
    Accumulate(next, child, made, more, was, Remaining(previous', kept'), all);
    ChosenSnoc(next, child, wanted, i, mounted + dormant, firstId);
    NumberedConcat(made, more, firstId, count, count');
    next', made' := next + [child], made + more;
  }

  method TakeChildren(wanted: seq<Key>, ghost mounted: seq<Element>, ghost dormant: seq<Element>,
                      previousIndices: map<Key, nat>, keptIndices: map<Key, nat>,
                      previousAll: seq<Option<Element>>, keptAll: seq<Option<Element>>, firstId: nat)
    returns (next: seq<Element>, previous: seq<Option<Element>>, kept: seq<Option<Element>>, count: nat,
             ghost made: seq<Element>)
    requires DistinctSeq(wanted)
    requires Indexes(previousIndices, mounted) && Indexes(keptIndices, dormant)
             && previousIndices.Keys !! keptIndices.Keys
    requires Vacated(previousAll, mounted, {}) && Vacated(keptAll, dormant, {})
    ensures AllChosen(next, wanted, mounted + dormant, firstId) && Numbered(made, firstId, count)
    ensures count == firstId + News(wanted, |wanted|, mounted + dormant)
    ensures Vacated(previous, mounted, KeySet(wanted)) && Vacated(kept, dormant, KeySet(wanted))
    ensures multiset(next) + Remaining(previous, kept) == Remaining(previousAll, keptAll) + multiset(made)
  {
    next, previous, kept, count, made := [], previousAll, keptAll, firstId, [];
    ghost var all := Remaining(previousAll, keptAll);
    for i := 0 to |wanted|
      invariant Taken(wanted, i, mounted, dormant, all, firstId, next, previous, kept, count, made)
    {
      next, previous, kept, count, made := TakeNext(wanted, i, mounted, dormant, all, previousIndices, keptIndices,
                                                    firstId, next, previous, kept, count, made);
    }
    assert wanted[..|wanted|] == wanted;
  }

  lemma LeftInSlots(wanted: seq<Key>, mounted: seq<Element>, dormant: seq<Element>,
                    previous: seq<Option<Element>>, kept: seq<Option<Element>>)
    requires Vacated(previous, mounted, KeySet(wanted)) && Vacated(kept, dormant, KeySet(wanted))
    ensures Present(previous) == Without(mounted, KeySet(wanted)) && Present(kept) == Without(dormant, KeySet(wanted))
    ensures Remaining(previous, kept) == multiset(Leaving(mounted, dormant, wanted))
  {
    PresentWithout(previous, mounted, KeySet(wanted));
    PresentWithout(kept, dormant, KeySet(wanted));
  }

  /** The matching loop: move each wanted element out of the old vectors, or create it. */
  method MatchChildren(wanted: seq<Key>, mounted: seq<Element>, dormant: seq<Element>, firstId: nat)
    returns (next: seq<Element>, previous: seq<Option<Element>>, kept: seq<Option<Element>>, count: nat,
             ghost made: seq<Element>)
    requires DistinctSeq(wanted) && DistinctKeys(mounted) && DistinctKeys(dormant) && Keys(dormant) !! Keys(mounted)
    ensures AllChosen(next, wanted, mounted + dormant, firstId) && Numbered(made, firstId, count)
    ensures count == firstId + News(wanted, |wanted|, mounted + dormant)
    ensures Present(previous) == Without(mounted, KeySet(wanted)) && Present(kept) == Without(dormant, KeySet(wanted))
    ensures multiset(next) + multiset(Leaving(mounted, dormant, wanted)) == multiset(mounted) + multiset(dormant)
            + multiset(made)
  {
    var previousIndices := Indices(mounted);
    var keptIndices := Indices(dormant);
    IndicesApart(previousIndices, keptIndices, mounted, dormant);
    previous := AllPresent(mounted);
    kept := AllPresent(dormant);
    next, previous, kept, count, made := TakeChildren(wanted, mounted, dormant, previousIndices, keptIndices, previous,
                                                      kept, firstId);
    LeftInSlots(wanted, mounted, dormant, previous, kept);
  }

  /** Keep what the policy retains, unmount the rest. */
  method RetainOrUnmount(slots: seq<Option<Element>>, keep: set<Key>)
    returns (retained: seq<Element>, ghost dropped: seq<Element>)
    ensures retained == Within(Present(slots), keep) && dropped == Without(Present(slots), keep)
  {
    retained, dropped := [], [];
    for i := 0 to |slots|
      invariant retained == Within(Present(slots[..i]), keep) && dropped == Without(Present(slots[..i]), keep)
    {
      PresentSnoc(slots, i);
      match slots[i]
      case None => assert Present(slots[..i]) + [] == Present(slots[..i]);
      case Some(child) =>
        FiltersSnoc(Present(slots[..i]), child, keep);
        if child.key in keep { retained := retained + [child]; } else { dropped := dropped + [child]; }
    }
    assert slots[..|slots|] == slots;
  }

  /** retain_or_unmount over the dormant elements, then over the mounted ones. */
  method RetainAll(previous: seq<Option<Element>>, kept: seq<Option<Element>>, keep: set<Key>)
    returns (nextKept: seq<Element>, ghost dropped: seq<Element>)
    ensures nextKept == Within(Present(kept) + Present(previous), keep)
    ensures dropped == Without(Present(kept) + Present(previous), keep)
  {
    WithinConcat(Present(kept), Present(previous), keep);
    WithoutConcat(Present(kept), Present(previous), keep);
    nextKept, dropped := RetainOrUnmount(kept, keep);
    var more;
    ghost var moreDropped;
    more, moreDropped := RetainOrUnmount(previous, keep);
    nextKept, dropped := nextKept + more, dropped + moreDropped;
  }

  lemma Assembled(was: Places, wanted: seq<Key>, keep: set<Key>, limit: Option<nat>,
                  nextKept: seq<Element>, dropped: seq<Element>, now: Places)
    requires AllChosen(now.mounted, wanted, was.mounted + was.dormant, was.nextId)
    requires now.nextId == was.nextId + News(wanted, |wanted|, was.mounted + was.dormant)
    requires nextKept == Retained(was.mounted, was.dormant, wanted, keep)
    requires dropped == Without(Leaving(was.mounted, was.dormant, wanted), keep)
    requires var excess := Excess(|nextKept|, limit);
             now.dormant == nextKept[excess..] && now.unmounted == was.unmounted + dropped + nextKept[..excess]
    ensures Realizes(was, wanted, keep, limit, now)
  {
  }

  /** The new mounted and retained vectors, before the limit is enforced. */
  method Exchange(wanted: seq<Key>, mounted: seq<Element>, dormant: seq<Element>, keep: set<Key>, firstId: nat)
    returns (next: seq<Element>, nextKept: seq<Element>, count: nat, ghost made: seq<Element>,
             ghost dropped: seq<Element>)
    requires DistinctSeq(wanted) && DistinctKeys(mounted) && DistinctKeys(dormant) && Keys(dormant) !! Keys(mounted)
    ensures AllChosen(next, wanted, mounted + dormant, firstId) && Numbered(made, firstId, count)
    ensures count == firstId + News(wanted, |wanted|, mounted + dormant)
    ensures nextKept == Retained(mounted, dormant, wanted, keep)
            && dropped == Without(Leaving(mounted, dormant, wanted), keep)
    ensures multiset(next) + multiset(Leaving(mounted, dormant, wanted)) == multiset(mounted) + multiset(dormant)
            + multiset(made)
  {
    var previous, kept;
    next, previous, kept, count, made := MatchChildren(wanted, mounted, dormant, firstId);
    nextKept, dropped := RetainAll(previous, kept, keep);
  }

  /** The erase_if of the lazy update_view. */
  method EraseUnwanted(elements: seq<Element>, keep: set<Key>)
    returns (retained: seq<Element>, ghost dropped: seq<Element>)
    ensures retained == Within(elements, keep) && dropped == Without(elements, keep)
  {
    retained, dropped := [], [];
    for i := 0 to |elements|
      invariant retained == Within(elements[..i], keep) && dropped == Without(elements[..i], keep)
    {
      assert elements[..i + 1] == elements[..i] + [elements[i]];
      FiltersSnoc(elements[..i], elements[i], keep);
      if elements[i].key in keep { retained := retained + [elements[i]]; } else { dropped := dropped + [elements[i]]; }
    }
    assert elements[..|elements|] == elements;
  }

  class LazyElement {
    var children: seq<Element>
    var keptAlive: seq<Element>
    var keys: seq<Key>
    var keepAliveKeys: set<Key>
    var limit: Option<nat>
    var nextId: nat
    ghost var unmounted: seq<Element>   // in the order of unmounting
    ghost var created: seq<Element>     // in the order of creation
    ghost var left: map<nat, nat>       // when an element last left the range
    ghost var clock: nat                // realizations so far

    ghost predicate Valid()
      reads this
    {
      && DistinctSeq(keys)
      && BucketOk(children, keptAlive, keepAliveKeys, limit)
      && Departed(keptAlive, left, 0, clock)
      && Partition(children, keptAlive, unmounted, created, nextId)
    }

    ghost function Placed(): Places
      reads this
    {
      Places(children, keptAlive, unmounted, nextId)
    }

    constructor ()
      ensures Valid() && children == [] && keptAlive == [] && unmounted == [] && keys == [] && nextId == 0
    {
      children, keptAlive, keys, keepAliveKeys, limit, nextId := [], [], [], {}, None, 0;
      unmounted, created, left, clock := [], [], map[], 0;
    }

    /** enforce_lazy_keep_alive_limit: the front is unmounted in order until the limit is met, and no further. */
    method EnforceLimit()
      modifies this`keptAlive, this`unmounted
      ensures unmounted + keptAlive == old(unmounted + keptAlive) && old(unmounted) <= unmounted
      ensures |keptAlive| == Smaller(|old(keptAlive)|, limit)
      ensures var excess := Excess(|old(keptAlive)|, limit);
              keptAlive == old(keptAlive)[excess..] && unmounted == old(unmounted) + old(keptAlive)[..excess]
    {
      if limit.None? || |keptAlive| <= limit.value { return; }
      var excess := |keptAlive| - limit.value;
      for index := 0 to excess
        invariant unmounted == old(unmounted) + keptAlive[..index]
      {
        assert keptAlive[..index + 1] == keptAlive[..index] + [keptAlive[index]];
        unmounted := unmounted + [keptAlive[index]];
      }
      Associate(old(unmounted), keptAlive[..excess], keptAlive[excess..]);
      assert keptAlive == keptAlive[..excess] + keptAlive[excess..];
      keptAlive := keptAlive[excess..];
    }

    /** Cut the bucket to its limit once everything else is in order. */
    method Trim()
      requires DistinctSeq(keys) && Installable(children, keptAlive, unmounted, created, nextId, keepAliveKeys, limit,
                                                left, clock)
      modifies this`keptAlive, this`unmounted
      ensures Valid()
      ensures var excess := Excess(|old(keptAlive)|, limit);
              keptAlive == old(keptAlive)[excess..] && unmounted == old(unmounted) + old(keptAlive)[..excess]
    {
      EnforceLimit();
    }

    /** Install the new vectors and enforce the limit. */
    method Install(next: seq<Element>, nextKept: seq<Element>, count: nat, ghost later: map<nat, nat>,
                   ghost gone: seq<Element>, ghost made: seq<Element>)
      requires DistinctSeq(keys)
      requires Installable(next, nextKept, gone, made, count, keepAliveKeys, limit, later, clock + 1)
      modifies this`children, this`keptAlive, this`nextId, this`unmounted, this`created, this`left, this`clock
      ensures Valid() && children == next && nextId == count && created == made
      ensures var excess := Excess(|nextKept|, limit);
              keptAlive == nextKept[excess..] && unmounted == gone + nextKept[..excess]
      ensures clock == old(clock) + 1 && left == later
    {
      clock, left, unmounted, created := clock + 1, later, gone, made;
      children, keptAlive, nextId := next, nextKept, count;
      Trim();
    }

    method InstallRealized(ghost wanted: seq<Key>, next: seq<Element>, nextKept: seq<Element>, count: nat,
                           ghost later: map<nat, nat>, ghost dropped: seq<Element>, ghost made: seq<Element>)
      requires DistinctSeq(keys)
      requires Installable(next, nextKept, unmounted + dropped, made, count, keepAliveKeys, limit, later, clock + 1)
      requires AllChosen(next, wanted, children + keptAlive, nextId)
      requires count == nextId + News(wanted, |wanted|, children + keptAlive)
      requires nextKept == Retained(children, keptAlive, wanted, keepAliveKeys)
      requires dropped == Without(Leaving(children, keptAlive, wanted), keepAliveKeys)
      modifies this`children, this`keptAlive, this`nextId, this`unmounted, this`created, this`left, this`clock
      ensures Valid() && Realizes(old(Placed()), wanted, keepAliveKeys, limit, Placed())
      ensures clock == old(clock) + 1 && left == later && keptAlive == nextKept[Excess(|nextKept|, limit)..]
    {
      ghost var was := Placed();
      Install(next, nextKept, count, later, unmounted + dropped, made);
      Assembled(was, wanted, keepAliveKeys, limit, nextKept, dropped, Placed());
    }

    /** Mount exactly the elements with these keys, in this order. */
    method RealizeKeys(wanted: seq<Key>)
      requires Valid() && DistinctSeq(wanted)
      modifies this`children, this`keptAlive, this`nextId, this`unmounted, this`created, this`left, this`clock
      ensures Valid() && Realizes(old(Placed()), wanted, keepAliveKeys, limit, Placed())
      ensures clock == old(clock) + 1 && Times(keptAlive, old(children), old(keptAlive), old(left), left, clock)
    {
      var next, nextKept, count;
      ghost var made, dropped;
      next, nextKept, count, made, dropped := Exchange(wanted, children, keptAlive, keepAliveKeys, nextId);
      ghost var later := RealizedOk(children, keptAlive, unmounted, created, wanted, keepAliveKeys, limit, next, made,
                                    left, clock, nextKept, dropped, count, nextId);
      InstallRealized(wanted, next, nextKept, count, later, dropped, created + made);
    }

    /** realize_lazy_fixed_extent_range; an invalid range is refused. */
    method Realize(first: nat, end: nat) returns (ok: bool)
      requires Valid()
      modifies this`children, this`keptAlive, this`nextId, this`unmounted, this`created, this`left, this`clock
      ensures Valid()
      ensures ok == (first <= end <= |keys|)
      ensures !ok ==> Placed() == old(Placed())
      ensures ok ==> Realizes(old(Placed()), keys[first..end], keepAliveKeys, limit, Placed())
      ensures ok ==> clock == old(clock) + 1 && Times(keptAlive, old(children), old(keptAlive), old(left), left, clock)
    {
      if end > |keys| || first > end { return false; }
      DistinctSlice(keys, first, end);
      RealizeKeys(keys[first..end]);
      return true;
    }

    method AdoptModel(newKeys: seq<Key>, newKeep: set<Key>, newLimit: Option<nat>, retained: seq<Element>,
                      ghost gone: seq<Element>)
      requires DistinctSeq(newKeys) && Installable(children, retained, gone, created, nextId, newKeep, newLimit, left,
                                                   clock)
      modifies this`keys, this`keepAliveKeys, this`limit, this`keptAlive, this`unmounted
      ensures Valid() && keys == newKeys && keepAliveKeys == newKeep && limit == newLimit
      ensures var excess := Excess(|retained|, newLimit);
              keptAlive == retained[excess..] && unmounted == gone + retained[..excess]
    {
      keys, keepAliveKeys, limit := newKeys, newKeep, newLimit;
      keptAlive, unmounted := retained, gone;
      Trim();
    }

    /** The lazy update_view: a new model drops the dormant elements it does not keep alive. */
    method InstallModel(newKeys: seq<Key>, newKeep: set<Key>, newLimit: Option<nat>)
      requires Valid() && DistinctSeq(newKeys)
      modifies this`keys, this`keepAliveKeys, this`limit, this`keptAlive, this`unmounted
      ensures Valid() && keys == newKeys && keepAliveKeys == newKeep && limit == newLimit
      ensures Placed() == Adopted(old(Placed()), newKeep, newLimit)
    {
      var retained;
      ghost var dropped;
      retained, dropped := EraseUnwanted(keptAlive, newKeep);
      ModelOk(children, keptAlive, unmounted, created, nextId, newKeep, newLimit, left, clock, retained, dropped);
      AdoptModel(newKeys, newKeep, newLimit, retained, unmounted + dropped);
    }
  }
}
