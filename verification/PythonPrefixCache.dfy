/** tinyserve/prefix/cache.py: the pure-Python prefix cache, as a heap of nodes. */
module PythonCache {
  import opened Requests
  import opened PrefixClaims
  import opened RadixTree

  class PythonPrefixCache {
    const blockSize: nat
    var root: Node
    var seqNodes: map<int, seq<Node>>
    var nodeCount: int

    ghost var claims: seq<Claim>
    ghost var graph: Graph
    ghost var cells: Cells
    ghost var repr: set<Node>

    ghost predicate Valid()
      reads this, repr
    {
      && blockSize >= 1
      && Within(graph, repr)
      && Synced(graph, cells)
      && IsTree(claims, graph, cells, root, seqNodes, nodeCount)
    }

    constructor (blockSize: nat)
      requires blockSize >= 1
      ensures Valid() && claims == [] && this.blockSize == blockSize
      ensures fresh(repr)
    {
      this.blockSize := blockSize;
      var r := new Node.Root();
      root, seqNodes, nodeCount := r, map[], 0;
      claims, graph, cells, repr := [], map[[] := r], map[[] := Cell({}, [])], {r};
    }

    /** Follow the blocks from the root as far as there are children. */
    method Walk(blocks: Path, ghost g: Graph, ghost h: Cells, ghost claims: seq<Claim>)
      returns (node: Node, matched: nat)
      requires Synced(g, h) && Linked(g, h) && Holds(h, claims) && g[[]] == root
      ensures matched == MatchLen(claims, blocks)
      ensures matched > 0 ==> node.owners == Owners(claims, blocks[..matched]) != []
    {
      node, matched := root, 0;
      while matched < |blocks|
        invariant matched <= |blocks| && blocks[..matched] in g && node == g[blocks[..matched]]
      {
        StepIsChild(g, h, blocks[..matched], blocks[matched]);
        assert SyncedAt(g, h, blocks[..matched]);
        assert blocks[..matched + 1] == blocks[..matched] + [blocks[matched]];
        if blocks[matched] !in node.children {
          break;
        }
        node := node.children[blocks[matched]];
        matched := matched + 1;
      }
      assert SyncedAt(g, h, blocks[..matched]);
      LongestWalk(g, h, claims, blocks, matched);
    }

    method Match(tokens: seq<Token>) returns (hit: PrefixMatch)
      requires Valid()
      ensures hit == PrefixClaims.Match(claims, tokens, blockSize)
    {
      if |tokens| < blockSize {
        return PrefixMatch(0, NO_SEQ);
      }
      var node, matched := Walk(Blocks(tokens, blockSize), graph, cells, claims);
      if matched == 0 {
        return PrefixMatch(0, NO_SEQ);
      }
      MulMono(0, matched, blockSize);
      var donor := if node.owners != [] then node.owners[|node.owners| - 1] else NO_SEQ;
      hit := PrefixMatch(matched * blockSize, donor);
    }

    /** `Match`, cut so that at least one token is left to prefill. */
    method MatchForReuse(tokens: seq<Token>) returns (hit: PrefixMatch)
      requires Valid()
      ensures hit == PrefixClaims.MatchForReuse(claims, tokens, blockSize)
    {
      var usable := ((|tokens| - 1) / blockSize) * blockSize;
      if usable <= 0 {
        return PrefixMatch(0, NO_SEQ);
      }
      hit := Match(tokens);
      if hit.nTokens > usable {
        hit := PrefixMatch(usable, hit.seqId);
      }
    }

    /** One node of the evicted path: drop the owner, and unlink the node if that was
        its last owner and it has no child. */
    method Visit(node: Node, id: int, ghost g0: Graph, ghost g: Graph, ghost h: Cells,
                 ghost before: Claimants, ghost after: Claimants, ghost path: Path, ghost p: Path,
                   ghost repr: set<Node>)
      returns (removed: bool, ghost g': Graph, ghost h': Cells)
      requires Drops(before, after, id, PrefixSet(path)) && p != [] && p <= path
      requires Synced(g, h) && Linked(g, h) && Mid(h, before, after, PrefixSet(p))
      requires Shrunk(g, g0) && p in g0 && node == g0[p] && Within(g0, repr)
      modifies repr
      ensures Synced(g', h') && Linked(g', h') && Mid(h', before, after, PrefixSet(p[..|p| - 1]))
      ensures Shrunk(g', g0) && |g'| == if removed then |g| - 1 else |g|
    {
      LongestIsNext(path, p);
      VisitedNode(g, h, before, after, id, PrefixSet(path), PrefixSet(p), p);
      assert SyncedAt(g, h, p);
      if id in node.owners {
        SetOwners(node, RemoveFirst(node.owners, id), g, h);
      }
      if node.owners != [] || node.children != map[] {
        KeptNode(g, h, before, after, PrefixSet(p), p);
        return false, g, WithOwners(h, p, after(p));
      }
      RemovedNode(g, h, before, after, PrefixSet(p), p);
      FewerNodes(g, p);
      UnlinkNode(node, g, h, p);
      return true, g - {p}, Unlinked(h, p);
    }

    /** The loop of the eviction: every node of the path, deepest first. */
    method Unwind(sorted: seq<Node>, id: int, ghost g0: Graph, ghost h0: Cells,
                  ghost before: Claimants, ghost after: Claimants, ghost path: Path, ghost repr: set<Node>)
      returns (ghost g: Graph, ghost h: Cells)
      requires Drops(before, after, id, PrefixSet(path)) && Deepest(g0, sorted, path)
      requires Synced(g0, h0) && Linked(g0, h0) && Mid(h0, before, after, PrefixSet(path))
      requires Within(g0, repr)
      modifies `nodeCount, repr
      ensures Synced(g, h) && Linked(g, h) && Mid(h, before, after, {})
      ensures nodeCount - |g| == old(nodeCount) - |g0| && Shrunk(g, g0)
    {
      g, h := g0, h0;
      ghost var todo := path;
      for n := 0 to |sorted|
        invariant todo <= path && |todo| == |sorted| - n
        invariant Synced(g, h) && Linked(g, h) && Mid(h, before, after, PrefixSet(todo))
        invariant Shrunk(g, g0) && nodeCount - |g| == old(nodeCount) - |g0|
      {
        NodeToVisit(g0, sorted, path, todo, n);
        var removed;
        removed, g, h := Visit(sorted[n], id, g0, g, h, before, after, path, todo, repr);
        if removed {
          nodeCount := nodeCount - 1;
        }
        todo := todo[..|todo| - 1];
      }
      assert todo == [] && PrefixSet(todo) == {};
    }

    method Evict(id: int)
      requires Valid()
      modifies this, repr
      ensures Valid() && claims == PrefixClaims.Evict(old(claims), id)
      ensures repr == old(repr)
    {
      if id !in seqNodes {
        EvictAbsent(claims, id);
        return;
      }
      var owned := seqNodes[id];
      ghost var g, h, path, after;
      path, after := EvictionStarts(claims, graph, cells, root, seqNodes, nodeCount, id);
      seqNodes := seqNodes - {id};
      g, h := Unwind(DeepestFirst(owned), id, graph, cells, ClaimantsOf(claims), after, path, repr);
      EvictionEnds(claims, graph, cells, g, h, root, old(seqNodes), old(nodeCount), nodeCount, id, ClaimantsOf(claims));
      Describe(PrefixClaims.Evict(claims, id), g, h, repr);
    }

    /** The ghost description of the tree, once every real field has been written. */
    ghost method Describe(claims: seq<Claim>, g: Graph, h: Cells, repr: set<Node>)
      requires blockSize >= 1 && Within(g, repr) && Synced(g, h)
      requires IsTree(claims, g, h, root, seqNodes, nodeCount)
      modifies `claims, `graph, `cells, `repr
      ensures Valid() && this.claims == claims && this.repr == repr
    {
      this.claims, this.graph, this.cells, this.repr := claims, g, h, repr;
    }

    /** One block of the inserted path: find or create the child, and own it. */
    method AddBlock(node: Node, key: Block, id: int, ghost g: Graph, ghost h: Cells,
                    ghost rest: seq<Claim>, ghost p: Path, ghost repr: set<Node>)
      returns (child: Node, created: bool, ghost g': Graph, ghost h': Cells)
      requires p in g && node == g[p] && Within(g, repr)
      requires Synced(g, h) && Linked(g, h) && Holds(h, rest + [Claim(id, p)])
      modifies repr
      ensures created ==> fresh(child)
      ensures Synced(g', h') && Linked(g', h') && Holds(h', rest + [Claim(id, p + [key])])
      ensures p + [key] in g' && child == g'[p + [key]]
      ensures created == (p + [key] !in g) && g' == if created then g[p + [key] := child] else g
    {
      StepIsChild(g, h, p, key);
      assert SyncedAt(g, h, p);
      created := key !in node.children;
      if created {
        child := LinkNode(node, key, g, h, p);
        g', h' := g[p + [key] := child], Grown(h, p, key);
      } else {
        child, g', h' := node.children[key], g, h;
      }
      assert GrewBy(h', h, p + [key]);
      OwnerAdded(g', h', h, rest, id, p, key);
      LinkedAtPath(g', h');
      assert SyncedAt(g', h', p + [key]);
      SetOwners(child, child.owners + [id], g', h');
      h' := WithOwners(h', p + [key], h'[p + [key]].owners + [id]);
    }

    /** The same, with the bookkeeping of the loop around it. */
    method ClaimBlock(node: Node, key: Block, id: int, owned: seq<Node>, ghost g: Graph, ghost h: Cells,
                  ghost rest: seq<Claim>, ghost p: Path, ghost repr: set<Node>)
      returns (child: Node, owned': seq<Node>, ghost g': Graph, ghost h': Cells, ghost repr': set<Node>)
      requires p in g && node == g[p] && Within(g, repr) && OnPath(g, owned, p)
      requires Synced(g, h) && Linked(g, h) && Holds(h, rest + [Claim(id, p)])
      modifies `nodeCount, repr
      ensures Synced(g', h') && Linked(g', h') && Holds(h', rest + [Claim(id, p + [key])])
      ensures p + [key] in g' && child == g'[p + [key]]
      ensures Within(g', repr') && repr <= repr' && (forall n :: n in repr' ==> n in repr || fresh(n))
      ensures OnPath(g', owned', p + [key]) && Extends(g', g) && nodeCount - |g'| == old(nodeCount) - |g|
    {
      var created;
      child, created, g', h' := AddBlock(node, key, id, g, h, rest, p, repr);
      repr' := repr;
      if created {
        nodeCount := nodeCount + 1;
        repr' := repr + {child};
      }
      owned' := owned + [child];
      PathGrows(g', g, owned, p, key, child);
    }

    /** The loop of the insertion: every block of the path from the root down. */
    method Descend(path: Path, id: int, ghost g0: Graph, ghost h0: Cells, ghost rest: seq<Claim>,
                   ghost repr0: set<Node>)
      returns (owned: seq<Node>, ghost g: Graph, ghost h: Cells, ghost repr: set<Node>)
      requires Synced(g0, h0) && Linked(g0, h0) && g0[[]] == root && Holds(h0, rest) && Within(g0, repr0)
      modifies `nodeCount, repr0
      ensures Synced(g, h) && Linked(g, h) && Holds(h, rest + [Claim(id, path)])
      ensures OnPath(g, owned, path) && Extends(g, g0) && nodeCount - |g| == old(nodeCount) - |g0|
      ensures Within(g, repr) && repr0 <= repr && (forall n :: n in repr ==> n in repr0 || fresh(n))
    {
      EmptyClaim(h0, rest, id);
      owned, g, h, repr := [], g0, h0, repr0;
      var node := root;
      ghost var p: Path := [];
      for j := 0 to |path|
        invariant p == path[..j] && p in g && node == g[p]
        invariant Synced(g, h) && Linked(g, h) && Holds(h, rest + [Claim(id, p)])
        invariant OnPath(g, owned, p) && Extends(g, g0) && nodeCount - |g| == old(nodeCount) - |g0|
        invariant Within(g, repr) && repr0 <= repr && (forall n :: n in repr ==> n in repr0 || fresh(n))
      {
        node, owned, g, h, repr := ClaimBlock(node, path[j], id, owned, g, h, rest, p, repr);
        p := p + [path[j]];
      }
      assert p == path;
    }

    /** Publish for a sequence that holds no claim. */
    method Publish(blocks: Path, id: int)
      requires Valid() && forall i :: 0 <= i < |claims| ==> claims[i].owner != id
      modifies this, repr
      ensures Valid() && claims == old(claims) + [Claim(id, blocks)]
      ensures repr >= old(repr) && (forall n :: n in repr ==> n in old(repr) || fresh(n))
    {
      var owned;
      ghost var g, h, r;
      owned, g, h, r := Descend(blocks, id, graph, cells, claims, repr);
      InsertionEnds(claims, graph, cells, g, h, root, seqNodes, old(nodeCount), nodeCount, id, blocks, owned);
      seqNodes := seqNodes[id := owned];
      Describe(claims + [Claim(id, blocks)], g, h, r);
    }

    /** Publish the whole blocks of a prompt; returns how many tokens that is. */
    method Insert(tokens: seq<Token>, id: int) returns (published: int)
      requires Valid()
      modifies this, repr
      ensures Valid() && claims == PrefixClaims.Insert(old(claims), id, Blocks(tokens, blockSize))
      ensures published == |Blocks(tokens, blockSize)| * blockSize
      ensures |tokens| < blockSize ==> claims == old(claims) && published == 0
      ensures published == |tokens| / blockSize * blockSize
      ensures repr >= old(repr) && (forall n :: n in repr ==> n in old(repr) || fresh(n))
    {
      if |tokens| < blockSize {
        WholeBlocks(tokens, blockSize);
        return 0;
      }
      var blocks := Blocks(tokens, blockSize);
      BlockCount(tokens, blockSize);
      Evict(id);
      EvictedIsAbsent(old(claims), id);
      Publish(blocks, id);
      published := |blocks| * blockSize;
    }

    /** The number of live nodes is the number of distinct claimed prefixes. */
    method NodeCount() returns (n: int)
      requires Valid()
      ensures n == |Prefixes(claims)|
    {
      NodesAreClaimedPrefixes(graph, cells, claims);
      n := nodeCount;
    }

    method SeqCount() returns (n: int)
      requires Valid()
      ensures n == |claims|
    {
      ListsAreClaims(graph, claims, seqNodes);
      n := |seqNodes|;
    }

    /** Forget everything. */
    method Close()
      requires blockSize >= 1
      modifies this
      ensures Valid() && claims == [] && fresh(repr)
    {
      var r := new Node.Root();
      EmptyTree(r);
      root, seqNodes, nodeCount := r, map[], 0;
      Describe([], map[[] := r], map[[] := Cell({}, [])], {r});
    }
  }
}
