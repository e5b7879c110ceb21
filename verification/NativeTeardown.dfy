/** ts_prefix_cache_destroy: tearing the tree down with an explicit stack.

    The stack always holds pairwise unrelated nodes whose subtrees are exactly what is
    left to delete. That is why each node is deleted once and none is read afterwards. */
module NativeTeardown {
  import opened PrefixClaims
  import opened RadixTree
  import opened NativeCache

  /** No stacked path is a prefix of another. */
  ghost predicate Unrelated(paths: seq<Path>)
  {
    forall i, j :: 0 <= i < |paths| && 0 <= j < |paths| && i != j ==> !(paths[i] <= paths[j])
  }

  ghost predicate Covers(paths: seq<Path>, p: Path)
  {
    exists i :: 0 <= i < |paths| && paths[i] <= p
  }

  /** The paths of the children of q, in some order. */
  ghost function ChildPaths(q: Path, keys: seq<Block>): (paths: seq<Path>)
    ensures |paths| == |keys|
    ensures forall i :: 0 <= i < |keys| ==> paths[i] == q + [keys[i]]
  {
    seq(|keys|, i requires 0 <= i < |keys| => q + [keys[i]])
  }

  ghost predicate Enumerates<T(!new)>(keys: seq<T>, kids: set<T>)
  {
    && (forall k :: k in kids <==> k in keys)
    && forall i, j :: 0 <= i < j < |keys| ==> keys[i] != keys[j]
  }

  lemma {:induction false} AncestorsExist(g: Graph, h: Cells, p: Path, j: nat)
    requires Linked(g, h) && p in g && j <= |p|
    ensures p[..j] in g
    decreases |p| - j
  {
    if j == |p| {
      assert p[..j] == p;
    } else {
      AncestorsExist(g, h, p, j + 1);
      assert LinkedAt(g, h, p[..j + 1]);
      assert p[..j + 1][..j] == p[..j];
    }
  }

  lemma Replaced(rest: seq<Path>, q: Path, keys: seq<Block>)
    requires Unrelated(rest + [q]) && forall i, j :: 0 <= i < j < |keys| ==> keys[i] != keys[j]
    ensures Unrelated(rest + ChildPaths(q, keys))
  {
    var was, now := rest + [q], rest + ChildPaths(q, keys);
    assert was[|rest|] == q;
    forall i, j | 0 <= i < |now| && 0 <= j < |now| && i != j
      ensures !(now[i] <= now[j])
    {
      assert i < |rest| ==> now[i] == was[i];
      assert j < |rest| ==> now[j] == was[j];
      if i < |rest| && j >= |rest| {
        NotBelow(was[i], q, keys[j - |rest|]);
      } else if i >= |rest| && j < |rest| {
        NotAbove(q, keys[i - |rest|], was[j]);
      } else if i >= |rest| && j >= |rest| {
        Siblings(q, keys[i - |rest|], keys[j - |rest|]);
      }
    }
  }

  lemma NotBelow(a: Path, q: Path, k: Block)
    requires !(a <= q) && !(q <= a)
    ensures !(a <= q + [k])
  {
    if a <= q + [k] { SplitPrefix(a, q, k); }
  }

  lemma NotAbove(q: Path, k: Block, b: Path)
    requires !(q <= b)
    ensures !(q + [k] <= b)
  {
  }

  lemma Siblings(q: Path, k: Block, l: Block)
    requires k != l
    ensures !(q + [k] <= q + [l])
  {
    assert (q + [k])[|q|] == k && (q + [l])[|q|] == l;
  }

  lemma SplitPrefix(a: Path, q: Path, k: Block)
    requires a <= q + [k]
    ensures a <= q || q <= a
  {
    if |a| <= |q| {
      assert a == (q + [k])[..|a|] == q[..|a|];
    } else {
      assert a == q + [k];
    }
  }

  /** Popping q and pushing its children covers what was covered, except q itself. */
  lemma CoverStep(g: Graph, h: Cells, rest: seq<Path>, q: Path, keys: seq<Block>, p: Path)
    requires Linked(g, h) && q in g && p in g && Enumerates(keys, h[q].kids)
    requires Unrelated(rest + [q])
    ensures Covers(rest + ChildPaths(q, keys), p) <==> Covers(rest + [q], p) && p != q
  {
    var old_, new_ := rest + [q], rest + ChildPaths(q, keys);
    assert old_[|rest|] == q;
    if Covers(new_, p) {
      var i :| 0 <= i < |new_| && new_[i] <= p;
      if i < |rest| {
        assert old_[i] == new_[i];
      } else {
        assert q <= new_[i];
      }
    }
    if Covers(old_, p) && p != q {
      var i :| 0 <= i < |old_| && old_[i] <= p;
      if i < |rest| {
        assert new_[i] == old_[i];
      } else {
        var k := p[|q|];
        assert p[..|q| + 1] == q + [k];
        AncestorsExist(g, h, p, |q| + 1);
        StepIsChild(g, h, q, k);
        var m :| 0 <= m < |keys| && keys[m] == k;
        assert new_[|rest| + m] == q + [k];
      }
    }
  }

  /** The children of a node, as an array to push. */
  method ListChildren(node: Node) returns (keys: seq<Block>, nodes: seq<Node>)
    ensures Enumerates(keys, node.children.Keys)
    ensures |nodes| == |keys| && forall i :: 0 <= i < |keys| ==>
              keys[i] in node.children && nodes[i] == node.children[keys[i]]
  {
    keys, nodes := [], [];
    var left := node.children.Keys;
    while left != {}
      invariant left <= node.children.Keys
      invariant Enumerates(keys, node.children.Keys - left)
      invariant |nodes| == |keys| && forall i :: 0 <= i < |keys| ==>
                  keys[i] in node.children && nodes[i] == node.children[keys[i]]
      decreases left
    {
      var k :| k in left;
      left := left - {k};
      keys, nodes := keys + [k], nodes + [node.children[k]];
    }
  }

  /** What the loop knows: the stacked paths cover what is left, `trail` is what is gone. */
  ghost predicate Standing(h: Cells, paths: seq<Path>, trail: seq<Path>)
  {
    && Unrelated(paths)
    && (forall i :: 0 <= i < |paths| ==> paths[i] != [] && paths[i] in h)
    && (forall p {:trigger Covers(paths, p)} :: p in h && p != [] ==> (Covers(paths, p) <==> p !in trail))
    && (forall i :: 0 <= i < |trail| ==> trail[i] != [] && trail[i] in h)
    && forall i, j :: 0 <= i < j < |trail| ==> trail[i] != trail[j]
  }

  lemma StartsStanding(g: Graph, h: Cells, keys: seq<Block>)
    requires Linked(g, h) && Enumerates(keys, h[[]].kids)
    ensures Standing(h, ChildPaths([], keys), [])
  {
    var paths, none, top: Path := ChildPaths([], keys), [], [];
    assert Unrelated(none + [top]);
    Replaced(none, top, keys);
    assert none + paths == paths;
    forall p | p in h && p != [] ensures Covers(paths, p) {
      CoverStep(g, h, none, top, keys, p);
      assert (none + [top])[0] <= p;
    }
    assert LinkedAt(g, h, []);
  }

  lemma StepsStanding(g: Graph, h: Cells, rest: seq<Path>, q: Path, trail: seq<Path>, keys: seq<Block>)
    requires Linked(g, h) && Standing(h, rest + [q], trail)
    requires q in h && Enumerates(keys, h[q].kids)
    ensures q !in trail
    ensures Standing(h, rest + ChildPaths(q, keys), trail + [q])
  {
    var was, now, trail' := rest + [q], rest + ChildPaths(q, keys), trail + [q];
    assert was[|rest|] == q;
    assert Covers(was, q);
    Replaced(rest, q, keys);
    assert LinkedAt(g, h, q);
    forall i | 0 <= i < |now| ensures now[i] != [] && now[i] in h {
      if i < |rest| {
        assert now[i] == was[i];
      } else {
        assert keys[i - |rest|] in keys;
      }
    }
    forall p | p in h && p != [] ensures Covers(now, p) <==> p !in trail' {
      CoverStep(g, h, rest, q, keys, p);
    }
  }

  ghost predicate NodesAt(g: Graph, nodes: seq<Node>, paths: seq<Path>)
  {
    |nodes| == |paths| && forall i :: 0 <= i < |paths| ==> paths[i] in g && nodes[i] == g[paths[i]]
  }

  lemma NodesOfChildren(g: Graph, h: Cells, q: Path, keys: seq<Block>, nodes: seq<Node>)
    requires q in g && q in h && SyncedAt(g, h, q) && |nodes| == |keys|
    requires forall i :: 0 <= i < |keys| ==> keys[i] in g[q].children && nodes[i] == g[q].children[keys[i]]
    ensures NodesAt(g, nodes, ChildPaths(q, keys))
  {
  }

  /** Nothing stacked, everything gone: the freed nodes are the live ones but the root. */
  lemma AllFreed(g: Graph, h: Cells, live: set<Node>, freed: seq<Node>, trail: seq<Path>)
    requires Linked(g, h) && Exactly(g, live) && Standing(h, [], trail) && NodesAt(g, freed, trail)
    ensures forall i, j :: 0 <= i < j < |freed| ==> freed[i] != freed[j]
    ensures forall n :: n in freed <==> n in live && n != g[[]]
  {
    LinkedAtPath(g, h);
    forall n ensures n in freed <==> n in live && n != g[[]] {
      if n in freed {
        var i :| 0 <= i < |freed| && freed[i] == n;
        assert trail[i] in g;
      }
      if n in live && n != g[[]] {
        assert !Covers([], n.path);
        var i :| 0 <= i < |trail| && trail[i] == n.path;
        assert freed[i] == n;
      }
    }
  }

  /** One turn of the loop: read the children of the popped node, then delete it. */
  method Pop(node: Node, ghost g: Graph, ghost h: Cells, ghost rest: seq<Path>, ghost q: Path, ghost trail: seq<Path>)
    returns (nodes: seq<Node>, ghost keys: seq<Block>)
    requires Linked(g, h) && Synced(g, h) && Standing(h, rest + [q], trail) && q in g && node == g[q]
    ensures q !in trail && Standing(h, rest + ChildPaths(q, keys), trail + [q])
    ensures NodesAt(g, nodes, ChildPaths(q, keys))
  {
    assert SyncedAt(g, h, q);
    keys, nodes := ListChildren(node);
    NodesOfChildren(g, h, q, keys, nodes);
    StepsStanding(g, h, rest, q, trail, keys);
  }

  lemma {:induction false} TrailFits(dom: set<Path>, trail: seq<Path>)
    requires forall i :: 0 <= i < |trail| ==> trail[i] in dom
    requires forall i, j :: 0 <= i < j < |trail| ==> trail[i] != trail[j]
    ensures |trail| <= |dom|
  {
    if trail != [] {
      var n := |trail| - 1;
      TrailFits(dom - {trail[n]}, trail[..n]);
    }
  }

  /** Delete every node below the root, using an explicit stack. Each is deleted once, and
      a node is only ever read before it has been deleted. */
  method Destroy(cache: NativePrefixCache) returns (freed: seq<Node>)
    requires cache.Valid()
    ensures forall i, j :: 0 <= i < j < |freed| ==> freed[i] != freed[j]
    ensures forall n :: n in freed <==> n in cache.live && n != cache.root
  {
    ghost var g, h := cache.graph, cache.cells;
    assert SyncedAt(g, h, []);
    var keys, stack := ListChildren(cache.root);
    NodesOfChildren(g, h, [], keys, stack);
    StartsStanding(g, h, keys);
    ghost var paths, trail := ChildPaths([], keys), [];
    freed := [];
    while stack != []
      invariant Standing(h, paths, trail) && NodesAt(g, stack, paths) && NodesAt(g, freed, trail)
      decreases |h| - |trail|
    {
      var n := |stack| - 1;
      var node := stack[n];
      assert paths == paths[..n] + [paths[n]];
      var pushed;
      ghost var below;
      pushed, below := Pop(node, g, h, paths[..n], paths[n], trail);
      trail := trail + [paths[n]];
      TrailFits(h.Keys, trail);
      paths, stack, freed := paths[..n] + ChildPaths(paths[n], below), stack[..n] + pushed, freed + [node];
    }
    assert paths == [];
    AllFreed(g, h, cache.live, freed, trail);
  }
}
