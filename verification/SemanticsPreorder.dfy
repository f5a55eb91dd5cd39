/**
 What a flattening holds (src/rendering.cpp, SemanticsDiffer::update): one entry for every node of the tree, as the
 path of child indices leads to it, in lexicographic order of the paths.
 */
module SemanticsPreorder {
  import opened Common
  import opened Semantics

  type Path = seq<nat>

  /** Where a path of child indices leads: the entry names the node, the node above it and the last index. */
  function EntryAt(nodes: seq<SemanticsNode>, parent: Option<nat>, path: Path): Option<Entry>
    decreases |path|
  {
    if path == [] || path[0] >= |nodes| then None
    else
      var node := nodes[path[0]];
      if |path| == 1 then Some(Entry(node.id, parent, path[0], node.info))
      else EntryAt(node.children, Some(node.id), path[1..])
  }

  /** Lexicographic order; a path comes before the paths it leads on to. */
  predicate Lex(p: Path, q: Path)
    decreases |p|
  {
    q != [] && (p == [] || p[0] < q[0] || (p[0] == q[0] && Lex(p[1..], q[1..])))
  }

  // ---------------------------------------------------------------- the paths of a flattening

  function Prefixed(k: nat, paths: seq<Path>): seq<Path> {
    seq(|paths|, i requires 0 <= i < |paths| => [k] + paths[i])
  }

  /** The paths of `nodes[k..]` and what is below. */
  function Paths(nodes: seq<SemanticsNode>, k: nat): seq<Path>
    requires k <= |nodes|
    decreases nodes, |nodes| - k
  {
    if k == |nodes| then []
    else Prefixed(k, [[]] + Paths(nodes[k].children, 0)) + Paths(nodes, k + 1)
  }

  lemma PrefixedAt(nodes: seq<SemanticsNode>, parent: Option<nat>, k: nat, path: Path)
    requires k < |nodes|
    ensures EntryAt(nodes, parent, [k] + path)
            == if path == [] then Some(Entry(nodes[k].id, parent, k, nodes[k].info))
               else EntryAt(nodes[k].children, Some(nodes[k].id), path)
  {
    assert ([k] + path)[1..] == path;
  }

  ghost predicate Describe(paths: seq<Path>, nodes: seq<SemanticsNode>, parent: Option<nat>, entries: seq<Entry>) {
    |paths| == |entries| && forall i | 0 <= i < |paths| :: EntryAt(nodes, parent, paths[i]) == Some(entries[i])
  }

  lemma DescribeOne(nodes: seq<SemanticsNode>, parent: Option<nat>, k: nat, paths: seq<Path>)
    requires k < |nodes|
    requires Describe(paths, nodes[k].children, Some(nodes[k].id), Flat(nodes[k].children, Some(nodes[k].id), 0))
    ensures Describe(Prefixed(k, [[]] + paths), nodes, parent, FlatOne(nodes[k], parent, k))
  {
    var all, entries := [[]] + paths, FlatOne(nodes[k], parent, k);
    forall i | 0 <= i < |all| ensures EntryAt(nodes, parent, Prefixed(k, all)[i]) == Some(entries[i]) {
      PrefixedAt(nodes, parent, k, all[i]);
      if i > 0 {
        assert all[i] == paths[i - 1];
        assert EntryAt(nodes[k].children, Some(nodes[k].id), paths[i - 1]) == Some(entries[i]);
      }
    }
  }

  lemma {:induction false} PathsDescribe(nodes: seq<SemanticsNode>, parent: Option<nat>, k: nat)
    requires k <= |nodes|
    ensures Describe(Paths(nodes, k), nodes, parent, Flat(nodes[k..], parent, k))
    decreases nodes, |nodes| - k
  {
    if k < |nodes| {
      assert nodes[k..][0] == nodes[k] && nodes[k..][1..] == nodes[k + 1..];
      PathsDescribe(nodes[k].children, Some(nodes[k].id), 0);
      assert nodes[k].children[0..] == nodes[k].children;
      DescribeOne(nodes, parent, k, Paths(nodes[k].children, 0));
      PathsDescribe(nodes, parent, k + 1);
    }
  }

  predicate Ascend(paths: seq<Path>) {
    forall i, j | 0 <= i < j < |paths| :: Lex(paths[i], paths[j])
  }

  predicate StartAt(paths: seq<Path>, k: nat) {
    forall i | 0 <= i < |paths| :: paths[i] != [] && paths[i][0] >= k
  }

  lemma PrefixedAscend(k: nat, paths: seq<Path>)
    requires Ascend(paths) && StartAt(paths, 0)
    ensures Ascend(Prefixed(k, [[]] + paths))
  {
    var all := [[]] + paths;
    forall i, j | 0 <= i < j < |all| ensures Lex(Prefixed(k, all)[i], Prefixed(k, all)[j]) {
      assert ([k] + all[i])[1..] == all[i] && ([k] + all[j])[1..] == all[j];
      if i > 0 { assert Lex(paths[i - 1], paths[j - 1]); }
    }
  }

  lemma {:induction false} PathsAscend(nodes: seq<SemanticsNode>, k: nat)
    requires k <= |nodes|
    ensures Ascend(Paths(nodes, k)) && StartAt(Paths(nodes, k), k)
    decreases nodes, |nodes| - k
  {
    if k < |nodes| {
      var own, rest := Prefixed(k, [[]] + Paths(nodes[k].children, 0)), Paths(nodes, k + 1);
      PathsAscend(nodes[k].children, 0);
      PrefixedAscend(k, Paths(nodes[k].children, 0));
      PathsAscend(nodes, k + 1);
      forall i, j | 0 <= i < j < |own + rest| ensures Lex((own + rest)[i], (own + rest)[j]) {
        if j < |own| {
          assert Lex(own[i], own[j]);
        } else if i >= |own| {
          assert Lex(rest[i - |own|], rest[j - |own|]);
        }
      }
    }
  }

  lemma {:induction false} PathsComplete(nodes: seq<SemanticsNode>, parent: Option<nat>, k: nat, path: Path)
    requires k <= |nodes| && EntryAt(nodes, parent, path).Some? && path[0] >= k
    ensures path in Paths(nodes, k)
    decreases nodes, |nodes| - k
  {
    if path[0] == k {
      var all := [[]] + Paths(nodes[k].children, 0);
      assert path == [k] + path[1..];
      if path[1..] == [] {
        assert Prefixed(k, all)[0] == path;
      } else {
        PathsComplete(nodes[k].children, Some(nodes[k].id), 0, path[1..]);
        var i :| 0 <= i < |Paths(nodes[k].children, 0)| && Paths(nodes[k].children, 0)[i] == path[1..];
        assert all[i + 1] == path[1..] && Prefixed(k, all)[i + 1] == path;
      }
    } else {
      PathsComplete(nodes, parent, k + 1, path);
    }
  }

  /**
   A flattening is the tree: its entries are those of all paths into the tree, in lexicographic order.
   */
  lemma PreorderByPaths(roots: seq<SemanticsNode>) returns (paths: seq<Path>)
    ensures |paths| == |Flattened(roots)| && Ascend(paths)
    ensures forall i | 0 <= i < |paths| :: EntryAt(roots, None, paths[i]) == Some(Flattened(roots)[i])
    ensures forall path :: path in paths <==> EntryAt(roots, None, path).Some?
  {
    paths := Paths(roots, 0);
    assert roots[0..] == roots;
    PathsDescribe(roots, None, 0);
    PathsAscend(roots, 0);
    forall path | EntryAt(roots, None, path).Some? ensures path in paths { PathsComplete(roots, None, 0, path); }
  }
}
