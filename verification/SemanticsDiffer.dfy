/**
 SemanticsDiffer and AccessibilityBridge: the retained flattening, and the generation-tagged
 prepare / acknowledge / reject / retry transaction around it (src/rendering.cpp).
 */
module SemanticsDiffer {
  import opened Common
  import opened Semantics
  import opened SemanticsDiff
  import opened SemanticsOrder

  ghost predicate IsFlattening(s: seq<Entry>) {
    exists roots :: Flattened(roots) == s && Acceptable(s)
  }

  /** The three change loops of SemanticsDiffer::update. */
  method Changes(old_: seq<Entry>, next: seq<Entry>) returns (changes: seq<Change>)
    ensures changes == Diff(old_, next)
  {
    var previous := BuildMap(old_);
    var nextIds := BuildMap(next);
    var adds, updates, removes := [], [], [];
    for i := 0 to |next|
      invariant adds == AddsTo(previous, next, i)
    {
      if next[i].id !in previous { adds := adds + [Added(next[i])]; }
    }
    for i := 0 to |next|
      invariant updates == UpdatesTo(previous, next, i)
    {
      if next[i].id in previous && previous[next[i].id] != next[i] { updates := updates + [Updated(next[i])]; }
    }
    for r := 0 to |old_|
      invariant removes == RemovesTo(old_, nextIds, r)
    {
      var entry := old_[|old_| - 1 - r];
      if entry.id !in nextIds { removes := removes + [Removed(entry)]; }
    }
    changes := adds + updates + removes;
  }

  method BuildMap(s: seq<Entry>) returns (m: Model)
    ensures m == MapOf(s)
  {
    m := map[];
    for i := 0 to |s|
      invariant m == MapOf(s[..i])
    {
      m := m[s[i].id := s[i]];
      assert s[..i + 1][..i] == s[..i];
    }
    assert s[..|s|] == s;
  }

  class Differ {
    var entries: seq<Entry>

    ghost predicate Valid()
      reads this
    {
      IsFlattening(entries)
    }

    constructor ()
      ensures Valid() && entries == []
    {
      entries := [];
      assert Flattened([]) == [];
    }

    /** update: None is the logic_error of a malformed tree. */
    method Update(roots: seq<SemanticsNode>) returns (changes: Option<seq<Change>>)
      requires Valid()
      modifies this
      ensures Valid()
      ensures !Acceptable(Flattened(roots)) ==> changes == None && entries == old(entries)
      ensures Acceptable(Flattened(roots)) ==>
                changes == Some(Diff(old(entries), Flattened(roots))) && entries == Flattened(roots)
    {
      var next := FlattenTree(roots);
      if next.None? { return None; }
      var batch := Changes(entries, next.value);
      ghost var before :| Flattened(before) == entries && Acceptable(entries);
      EmptyIffSame(before, roots);
      if batch != [] { entries := next.value; }
      return Some(batch);
    }

    /** clear: remove everything, children first. */
    method Clear() returns (changes: seq<Change>)
      requires Valid()
      modifies this
      ensures Valid() && entries == [] && changes == Diff(old(entries), [])
    {
      changes := [];
      for r := 0 to |entries|
        invariant entries == old(entries)
        invariant changes == RemovesTo(entries, map[], r)
      {
        changes := changes + [Removed(entries[|entries| - 1 - r])];
      }
      entries := [];
      assert Flattened([]) == [];
    }
  }

  // ---------------------------------------------------------------- the bridge

  datatype Publication = Publication(generation: nat, changes: seq<Change>)

  datatype Transaction = Transaction(generation: nat, candidate: seq<Entry>, changes: seq<Change>, inFlight: bool)

  datatype Bridge = Bridge(acked: seq<Entry>, transaction: Option<Transaction>, nextGeneration: nat)

  datatype Prepared =
    | Busy                                // the delivery is already active
    | Exhausted                           // generations ran out
    | Unchanged                           // nothing to publish
    | Ready(publication: Publication)

  function PrepareResult(b: Bridge, next: seq<Entry>): Prepared {
    if b.transaction.Some? then Busy
    else if Diff(b.acked, next) == [] then Unchanged
    else if b.nextGeneration == MAX_U64 then Exhausted
    else Ready(Publication(b.nextGeneration, Diff(b.acked, next)))
  }

  function PrepareState(b: Bridge, next: seq<Entry>): Bridge {
    match PrepareResult(b, next)
    case Ready(p) => Bridge(b.acked, Some(Transaction(p.generation, next, p.changes, true)), b.nextGeneration + 1)
    case _ => b
  }

  function RetryResult(b: Bridge): Prepared {
    if b.transaction.None? || b.transaction.value.inFlight then Unchanged
    else if b.nextGeneration == MAX_U64 then Exhausted
    else Ready(Publication(b.nextGeneration, b.transaction.value.changes))
  }

  function RetryState(b: Bridge): Bridge {
    match RetryResult(b)
    case Ready(p) =>
      Bridge(b.acked, Some(b.transaction.value.(generation := p.generation, inFlight := true)), b.nextGeneration + 1)
    case _ => b
  }

  predicate Current(b: Bridge, generation: nat) {
    b.transaction.Some? && b.transaction.value.inFlight && b.transaction.value.generation == generation
  }

  function Acknowledged(b: Bridge, generation: nat): Bridge {
    if Current(b, generation) then b.(acked := b.transaction.value.candidate, transaction := None) else b
  }

  function RejectedState(b: Bridge, generation: nat): Bridge {
    if Current(b, generation) then b.(transaction := Some(b.transaction.value.(inFlight := false))) else b
  }

  function ResetState(b: Bridge): Bridge {
    b.(acked := [], transaction := None)
  }

  /** The transaction always carries the batch from the acknowledged model to its candidate. */
  ghost predicate BridgeOk(b: Bridge) {
    && IsFlattening(b.acked)
    && (b.transaction.Some? ==>
          var t := b.transaction.value;
          IsFlattening(t.candidate) && t.changes == Diff(b.acked, t.candidate) && t.changes != []
          && 0 < t.generation < b.nextGeneration)
    && 0 < b.nextGeneration <= MAX_U64
  }

  class AccessibilityBridge {
    var differ: Differ
    var transaction: Option<Transaction>
    var nextGeneration: nat

    ghost function View(): Bridge
      reads this, differ
    {
      Bridge(differ.entries, transaction, nextGeneration)
    }

    ghost predicate Valid()
      reads this, differ
    {
      BridgeOk(View())
    }

    constructor ()
      ensures Valid() && fresh(differ) && View() == Bridge([], None, 1)
    {
      differ := new Differ();
      transaction := None;
      nextGeneration := 1;
    }

    /** prepare: diff a copy of the differ against `roots` and open a transaction for the batch. */
    method Prepare(roots: seq<SemanticsNode>) returns (result: Prepared)
      requires Valid() && Acceptable(Flattened(roots))
      modifies this
      ensures Valid() && differ == old(differ)
      ensures result == PrepareResult(old(View()), Flattened(roots))
      ensures View() == PrepareState(old(View()), Flattened(roots))
    {
      if transaction.Some? { return Busy; }
      var candidate := new Differ();
      candidate.entries := differ.entries;
      var changes := candidate.Update(roots);
      result := Begin(candidate.entries, changes.value);
    }

    /** prepare_clear: the transaction that removes every entry. */
    method PrepareClear() returns (result: Prepared)
      requires Valid()
      modifies this
      ensures Valid() && differ == old(differ)
      ensures result == PrepareResult(old(View()), []) && View() == PrepareState(old(View()), [])
    {
      if transaction.Some? { return Busy; }
      var candidate := new Differ();
      candidate.entries := differ.entries;
      var changes := candidate.Clear();
      result := Begin(candidate.entries, changes);
    }

    /** begin_transaction. */
    method Begin(candidate: seq<Entry>, changes: seq<Change>) returns (result: Prepared)
      requires Valid() && transaction.None? && IsFlattening(candidate) && changes == Diff(differ.entries, candidate)
      modifies this
      ensures Valid() && differ == old(differ)
      ensures result == PrepareResult(old(View()), candidate) && View() == PrepareState(old(View()), candidate)
    {
      if changes == [] { return Unchanged; }
      if nextGeneration == MAX_U64 { return Exhausted; }
      result := Ready(Publication(nextGeneration, changes));
      transaction := Some(Transaction(nextGeneration, candidate, changes, true));
      nextGeneration := nextGeneration + 1;
    }

    method Retry() returns (result: Prepared)
      requires Valid()
      modifies this
      ensures Valid() && differ == old(differ)
      ensures result == RetryResult(old(View())) && View() == RetryState(old(View()))
    {
      if transaction.None? || transaction.value.inFlight { return Unchanged; }
      if nextGeneration == MAX_U64 { return Exhausted; }
      result := Ready(Publication(nextGeneration, transaction.value.changes));
      transaction := Some(transaction.value.(generation := nextGeneration, inFlight := true));
      nextGeneration := nextGeneration + 1;
    }

    method Acknowledge(generation: nat) returns (current: bool)
      requires Valid()
      modifies this, differ
      ensures Valid() && differ == old(differ)
      ensures current == Current(old(View()), generation) && View() == Acknowledged(old(View()), generation)
    {
      if transaction.None? || !transaction.value.inFlight || transaction.value.generation != generation {
        return false;
      }
      differ.entries := transaction.value.candidate;
      transaction := None;
      return true;
    }

    method Reject(generation: nat) returns (current: bool)
      requires Valid()
      modifies this
      ensures Valid() && differ == old(differ)
      ensures current == Current(old(View()), generation) && View() == RejectedState(old(View()), generation)
    {
      if transaction.None? || !transaction.value.inFlight || transaction.value.generation != generation {
        return false;
      }
      transaction := Some(transaction.value.(inFlight := false));
      return true;
    }

    method ResetAcknowledged()
      requires Valid()
      modifies this, differ
      ensures Valid() && differ == old(differ) && View() == ResetState(old(View()))
    {
      differ.entries := [];
      transaction := None;
      assert Flattened([]) == [];
    }
  }

  /** Clearing publishes a batch that empties the adapter, and its acknowledgement leaves nothing acknowledged. */
  lemma ClearEmpties(b: Bridge)
    requires BridgeOk(b) && PrepareResult(b, []).Ready?
    ensures var p := PrepareResult(b, []).publication;
            && ApplyAll(MapOf(b.acked), p.changes) == Some(map[])
            && Acknowledged(PrepareState(b, []), p.generation).acked == []
  {
    DiffReaches(b.acked, []);
  }
}
