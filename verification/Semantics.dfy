/**
 Semantics trees and their flattening: preorder entries that carry the parent id and the
 child index, checked for ids and focus on the way (src/rendering.cpp, SemanticsDiffer::update).
 */
module Semantics {
  import opened Common

  datatype Action = Activate | Focus

  datatype Bounds = Bounds(x: real, y: real, width: real, height: real)

  /** Everything a semantics node says about itself apart from its place in the tree. */
  datatype Info = Info(role: nat, name: string, value: string, enabled: bool, bounds: Bounds,
                       actions: seq<Action>, focusable: bool, focused: bool)

  datatype SemanticsNode = SemanticsNode(id: nat, info: Info, children: seq<SemanticsNode>)

  datatype Entry = Entry(id: nat, parent: Option<nat>, index: nat, info: Info)

  /** The preorder entries of siblings that share `parent`, the first having child index `k`. */
  function Flat(nodes: seq<SemanticsNode>, parent: Option<nat>, k: nat): seq<Entry> {
    if nodes == [] then []
    else FlatOne(nodes[0], parent, k) + Flat(nodes[1..], parent, k + 1)
  }

  function FlatOne(node: SemanticsNode, parent: Option<nat>, k: nat): seq<Entry> {
    [Entry(node.id, parent, k, node.info)] + Flat(node.children, Some(node.id), 0)
  }

  function Flattened(roots: seq<SemanticsNode>): seq<Entry> {
    Flat(roots, None, 0)
  }

  predicate DistinctIds(s: seq<Entry>) {
    forall i, j | 0 <= i < j < |s| :: s[i].id != s[j].id
  }

  predicate InfoOk(i: Info) {
    && (i.focused ==> i.focusable && i.enabled)
    && (i.focusable <==> Focus in i.actions)
  }

  predicate OneFocus(s: seq<Entry>) {
    forall i, j | 0 <= i < j < |s| :: !(s[i].info.focused && s[j].info.focused)
  }

  /** What SemanticsDiffer::update demands of a tree, on its flattening. */
  predicate Acceptable(s: seq<Entry>) {
    && DistinctIds(s) && OneFocus(s)
    && forall e | e in s :: e.id != 0 && InfoOk(e.info)
  }

  // ---------------------------------------------------------------- the explicit-stack walk

  datatype Pending = Pending(node: SemanticsNode, parent: Option<nat>, index: nat)

  /** What the pending stack (top last) still has to contribute. */
  function FlatPending(stack: seq<Pending>): seq<Entry> {
    if stack == [] then []
    else
      var top := stack[|stack| - 1];
      FlatOne(top.node, top.parent, top.index) + FlatPending(stack[..|stack| - 1])
  }

  function Size(nodes: seq<SemanticsNode>): nat {
    if nodes == [] then 0 else 1 + Size(nodes[0].children) + Size(nodes[1..])
  }

  function PendingSize(stack: seq<Pending>): nat {
    if stack == [] then 0
    else 1 + Size(stack[|stack| - 1].node.children) + PendingSize(stack[..|stack| - 1])
  }

  /** Push siblings so that the first one ends on top. */
  method PushReversed(stack: seq<Pending>, nodes: seq<SemanticsNode>, parent: Option<nat>)
    returns (result: seq<Pending>)
    ensures FlatPending(result) == Flat(nodes, parent, 0) + FlatPending(stack)
    ensures PendingSize(result) == Size(nodes) + PendingSize(stack)
  {
    result := stack;
    var index := |nodes|;
    while index > 0
      invariant 0 <= index <= |nodes|
      invariant FlatPending(result) == Flat(nodes[index..], parent, index) + FlatPending(stack)
      invariant PendingSize(result) == Size(nodes[index..]) + PendingSize(stack)
    {
      index := index - 1;
      var next := Pending(nodes[index], parent, index);
      ghost var before := result;
      result := result + [next];
      assert result[..|result| - 1] == before;
      assert nodes[index..][1..] == nodes[index + 1..];
      Associate(FlatOne(nodes[index], parent, index), Flat(nodes[index + 1..], parent, index + 1), FlatPending(stack));
    }
    assert nodes[0..] == nodes;
  }

  /** Flatten and validate; None stands for the logic_error of a malformed tree. */
  method FlattenTree(roots: seq<SemanticsNode>) returns (result: Option<seq<Entry>>)
    ensures result.Some? <==> Acceptable(Flattened(roots))
    ensures result.Some? ==> result.value == Flattened(roots)
  {
    var next: seq<Entry>, ids: set<nat>, hasFocused := [], {}, false;
    var stack := PushReversed([], roots, None);
    while stack != []
      invariant next + FlatPending(stack) == Flattened(roots)
      invariant Acceptable(next)
      invariant forall id :: id in ids <==> exists e :: e in next && e.id == id
      invariant hasFocused <==> exists e :: e in next && e.info.focused
      decreases PendingSize(stack)
    {
      var current := stack[|stack| - 1];
      var node := current.node;
      var entry := Entry(node.id, current.parent, current.index, node.info);
      ghost var rest := Flat(node.children, Some(node.id), 0) + FlatPending(stack[..|stack| - 1]);
      PopPending(next, stack);
      stack := stack[..|stack| - 1];
      if node.id == 0 || node.id in ids || !InfoOk(node.info) || (node.info.focused && hasFocused) {
        Refused(next, entry, rest);
        return None;
      }
      Admitted(next, entry);
      next, ids, hasFocused := next + [entry], ids + {node.id}, hasFocused || node.info.focused;
      stack := PushReversed(stack, node.children, Some(node.id));
    }
    return Some(next);
  }

  lemma PopPending(done: seq<Entry>, stack: seq<Pending>)
    requires stack != []
    ensures var top, below := stack[|stack| - 1], stack[..|stack| - 1];
            done + FlatPending(stack) ==
            done + [Entry(top.node.id, top.parent, top.index, top.node.info)]
            + (Flat(top.node.children, Some(top.node.id), 0) + FlatPending(below))
  {
  }

  lemma Admitted(done: seq<Entry>, e: Entry)
    requires Acceptable(done) && e.id != 0 && InfoOk(e.info)
    requires forall d | d in done :: d.id != e.id && !(d.info.focused && e.info.focused)
    ensures Acceptable(done + [e])
  {
    forall i | 0 <= i < |done| ensures done[i] in done {}
  }

  lemma Refused(done: seq<Entry>, e: Entry, rest: seq<Entry>)
    requires
      || e.id == 0 || !InfoOk(e.info) || (exists d :: d in done && d.id == e.id)
      || (e.info.focused && exists d :: d in done && d.info.focused)
    ensures !Acceptable(done + [e] + rest)
  {
    var all := done + [e] + rest;
    assert all[|done|] == e;
    if exists d :: d in done && d.id == e.id {
      var i :| 0 <= i < |done| && done[i].id == e.id;
      assert all[i].id == all[|done|].id;
    } else if e.info.focused && exists d :: d in done && d.info.focused {
      var i :| 0 <= i < |done| && done[i].info.focused;
      assert all[i].info.focused;
    }
  }
}
