/**
 Which elements of a lazy list are unmounted (include/dui/views.hpp): the policy decides whether an element
 that is not wanted may stay, and of those that may, the ones that left last stay up to the limit.
 */
module LazyEviction {
  import opened Common
  import opened LazyRealization

  /** At least as many elements as the limit allows have left after the one at place `i`. */
  predicate Overtaken(s: seq<Element>, i: nat, limit: Option<nat>)
    requires i < |s|
  {
    limit.Some? && |s[i + 1..]| >= limit.value
  }

  ghost predicate Evicted(s: seq<Element>, e: Element, limit: Option<nat>) {
    exists i: nat | i < |s| :: s[i] == e && Overtaken(s, i, limit)
  }

  /** The bucket is cut so that exactly the overtaken elements go. */
  lemma CutAtLimit(s: seq<Element>, limit: Option<nat>)
    ensures var cut := Excess(|s|, limit);
            && |s[cut..]| == Smaller(|s|, limit)
            && forall i: nat | i < |s| :: i < cut <==> Overtaken(s, i, limit)
  {
  }

  lemma CutHas(s: seq<Element>, limit: Option<nat>, e: Element)
    requires DistinctKeys(s)
    ensures var cut := Excess(|s|, limit);
            && (e in s[..cut] <==> Evicted(s, e, limit))
            && (e in s[cut..] <==> e in s && !Evicted(s, e, limit))
  {
    var cut := Excess(|s|, limit);
    CutAtLimit(s, limit);
    if e in s {
      var i: nat :| i < |s| && s[i] == e;
      forall j: nat | j < |s| && s[j] == e ensures j == i {
        if i < j { DistinctAt(s, i, j); }
        if j < i { DistinctAt(s, j, i); }
      }
      assert if i < cut then s[..cut][i] == e else s[cut..][i - cut] == e;
    }
  }

  /** A wanted element is mounted, and nothing else is. */
  lemma MountedExactly(was: Places, wanted: seq<Key>, keep: set<Key>, limit: Option<nat>, now: Places, e: Element)
    requires Realizes(was, wanted, keep, limit, now) && DistinctKeys(was.mounted + was.dormant)
    requires e in was.mounted + was.dormant
    ensures e in now.mounted <==> e.key in wanted
  {
    var former := was.mounted + was.dormant;
    forall i | 0 <= i < |wanted| ensures Chosen(now.mounted[i], wanted[i], former, was.nextId + News(wanted, i, former))
    {
    }
    if e.key in wanted {
      var i :| 0 <= i < |wanted| && wanted[i] == e.key;
      SameKeySame(former, e, now.mounted[i]);
    }
  }

  lemma LeavingHas(was: Places, wanted: seq<Key>, e: Element)
    requires e in was.mounted + was.dormant
    ensures e in Leaving(was.mounted, was.dormant, wanted) <==> e.key !in wanted
  {
    KeySetHas(wanted, e.key);
    FiltersHave(was.mounted, KeySet(wanted));
    FiltersHave(was.dormant, KeySet(wanted));
  }

  lemma RetainedDistinct(was: Places, wanted: seq<Key>, keep: set<Key>)
    requires DistinctKeys(was.mounted + was.dormant)
    ensures DistinctKeys(Retained(was.mounted, was.dormant, wanted, keep))
  {
    KeysConcat(was.mounted, was.dormant);
    LeavingKeys(was.mounted, was.dormant, wanted);
    KeysFilters(Leaving(was.mounted, was.dormant, wanted), keep);
  }

  /**
   Where every element goes: mounted when wanted; else unmounted when the policy does not keep it alive or as
   many of those it keeps as the limit allows have left after it; else dormant.
   */
  lemma Destinations(was: Places, wanted: seq<Key>, keep: set<Key>, limit: Option<nat>, now: Places, e: Element)
    requires Realizes(was, wanted, keep, limit, now) && DistinctKeys(was.mounted + was.dormant)
    requires e in was.mounted + was.dormant && e !in was.unmounted
    ensures var retained := Retained(was.mounted, was.dormant, wanted, keep);
            && |now.dormant| == Smaller(|retained|, limit)
            && (e in now.mounted <==> e.key in wanted)
            && (e in now.dormant <==> e.key !in wanted && e.key in keep && !Evicted(retained, e, limit))
            && (e in now.unmounted <==> e.key !in wanted && (e.key in keep ==> Evicted(retained, e, limit)))
  {
    var leaving := Leaving(was.mounted, was.dormant, wanted);
    var retained := Within(leaving, keep);
    MountedExactly(was, wanted, keep, limit, now, e);
    LeavingHas(was, wanted, e);
    FiltersHave(leaving, keep);
    RetainedDistinct(was, wanted, keep);
    CutAtLimit(retained, limit);
    CutHas(retained, limit, e);
  }

  /** The same for a new model, which leaves what is mounted alone. */
  lemma AdoptedDestinations(was: Places, keep: set<Key>, limit: Option<nat>, e: Element)
    requires DistinctKeys(was.dormant) && e in was.dormant && e !in was.unmounted
    ensures var now, retained := Adopted(was, keep, limit), Within(was.dormant, keep);
            && now.mounted == was.mounted && |now.dormant| == Smaller(|retained|, limit)
            && (e in now.dormant <==> e.key in keep && !Evicted(retained, e, limit))
            && (e in now.unmounted <==> (e.key in keep ==> Evicted(retained, e, limit)))
  {
    var retained := Within(was.dormant, keep);
    FiltersHave(was.dormant, keep);
    KeysFilters(was.dormant, keep);
    CutAtLimit(retained, limit);
    CutHas(retained, limit, e);
  }
}
