/** native/src/prefix_cache.cpp: the C++ radix tree.

    Same index as the Python one, with memory management: `live` is the set of nodes
    that have been allocated and not deleted, and every dereference is checked to hit
    a node in it. The root is part of the cache object and is never deleted on its own. */
module NativeCache {
  import opened Requests
  import opened PrefixClaims
  import opened RadixTree

  /** The allocated, undeleted nodes are exactly the nodes of the graph. */
  ghost predicate Exactly(g: Graph, live: set<Node>)
  {
    && Within(g, live)
    && forall n :: n in live ==> n.path in g && g[n.path] == n
  }

  class NativePrefixCache {
    const blockSize: nat
    const root: Node
    var seqNodes: map<int, seq<Node>>
    var nodeCount: int

    ghost var claims: seq<Claim>
    ghost var graph: Graph
    ghost var cells: Cells
    ghost var live: set<Node>

    ghost predicate Valid()
      reads this, live
    {
      && blockSize >= 1
      && Exactly(graph, live)
      && Synced(graph, cells)
      && IsTree(claims, graph, cells, root, seqNodes, nodeCount)
    }

    constructor (blockSize: nat)
      requires blockSize >= 1
      ensures Valid() && claims == [] && this.blockSize == blockSize
      ensures fresh(live)
    {
      this.blockSize := blockSize;
      var r := new Node.Root();
      root, seqNodes, nodeCount := r, map[], 0;
      claims, graph, cells, live := [], map[[] := r], map[[] := Cell({}, [])], {r};
    }

    /** Block b of a token array. */
    method Key(tokens: seq<Token>, b: nat) returns (key: Block)
      requires blockSize >= 1 && b < |tokens| / blockSize
      ensures b < |Blocks(tokens, blockSize)| && key == Blocks(tokens, blockSize)[b]
    {
      BlockCount(tokens, blockSize);
      BlockAt(tokens, blockSize, b);
      key := tokens[b * blockSize .. (b + 1) * blockSize];
    }

    /** Follow the tokens from the root, block by block. */
    method Walk(tokens: seq<Token>, ghost g: Graph, ghost h: Cells, ghost claims: seq<Claim>, ghost live: set<Node>)
      returns (node: Node, matchedBlocks: nat)
      requires blockSize >= 1 && Exactly(g, live)
      requires Synced(g, h) && Linked(g, h) && Holds(h, claims) && g[[]] == root
      ensures matchedBlocks == MatchLen(claims, Blocks(tokens, blockSize)) && node in live
      ensures matchedBlocks > 0 ==> node.owners == Owners(claims, Blocks(tokens, blockSize)[..matchedBlocks]) != []
    {
      ghost var blocks := Blocks(tokens, blockSize);
      BlockCount(tokens, blockSize);
      var nBlocks := |tokens| / blockSize;
      node, matchedBlocks := root, 0;
      while matchedBlocks < nBlocks
        invariant matchedBlocks <= nBlocks && blocks[..matchedBlocks] in g && node == g[blocks[..matchedBlocks]]
      {
        var key := Key(tokens, matchedBlocks);
        StepIsChild(g, h, blocks[..matchedBlocks], key);
        assert SyncedAt(g, h, blocks[..matchedBlocks]);
        assert blocks[..matchedBlocks + 1] == blocks[..matchedBlocks] + [key];
        assert node in live;
        if key !in node.children {
          break;
        }
        node := node.children[key];
        matchedBlocks := matchedBlocks + 1;
      }
      assert SyncedAt(g, h, blocks[..matchedBlocks]);
      LongestWalk(g, h, claims, blocks, matchedBlocks);
    }

    method Match(tokens: seq<Token>) returns (n: int, outSeqId: int)
      requires Valid()
      ensures PrefixClaims.Match(claims, tokens, blockSize).nTokens == n
      ensures PrefixClaims.Match(claims, tokens, blockSize).seqId == outSeqId
    {
      outSeqId := NO_SEQ;
      if |tokens| < blockSize {
        return 0, outSeqId;
      }
      var node, matchedBlocks := Walk(tokens, graph, cells, claims, live);
      if matchedBlocks == 0 {
        return 0, outSeqId;
      }
      if node.owners != [] {
        outSeqId := node.owners[|node.owners| - 1];
      }
      n := matchedBlocks * blockSize;
    }

    /** One node of the evicted path: drop the owner, and delete the node if that was its
        last owner and it has no child. */
    method Visit(node: Node, seqId: int, ghost g0: Graph, ghost g: Graph, ghost h: Cells, ghost live: set<Node>,
                 ghost before: Claimants, ghost after: Claimants, ghost path: Path, ghost p: Path,
                   ghost repr: set<Node>)
      returns (deleted: bool, ghost g': Graph, ghost h': Cells, ghost live': set<Node>)
      requires Drops(before, after, seqId, PrefixSet(path)) && p != [] && p <= path
      requires Synced(g, h) && Linked(g, h) && Mid(h, before, after, PrefixSet(p))
      requires Shrunk(g, g0) && p in g0 && node == g0[p] && Exactly(g, live) && live <= repr
      modifies repr
      ensures Synced(g', h') && Linked(g', h') && Mid(h', before, after, PrefixSet(p[..|p| - 1]))
      ensures Shrunk(g', g0) && |g'| == if deleted then |g| - 1 else |g|
      ensures Exactly(g', live') && live' <= live
    {
      LongestIsNext(path, p);
      VisitedNode(g, h, before, after, seqId, PrefixSet(path), PrefixSet(p), p);
      assert SyncedAt(g, h, p);
      assert node in live;
      SetOwners(node, RemoveFirst(node.owners, seqId), g, h);
      if node.owners != [] || node.children != map[] {
        KeptNode(g, h, before, after, PrefixSet(p), p);
        return false, g, WithOwners(h, p, after(p)), live;
      }
      assert node.parent in live;
      RemovedNode(g, h, before, after, PrefixSet(p), p);
      FewerNodes(g, p);
      UnlinkNode(node, g, h, p);
      return true, g - {p}, Unlinked(h, p), live - {node};
    }

    /** The same, keeping count. */
    method VisitCounted(node: Node, seqId: int, ghost g0: Graph, ghost g: Graph, ghost h: Cells, ghost live: set<Node>,
                        ghost before: Claimants, ghost after: Claimants, ghost path: Path, ghost p: Path,
                          ghost repr: set<Node>)
      returns (ghost g': Graph, ghost h': Cells, ghost live': set<Node>)
      requires Drops(before, after, seqId, PrefixSet(path)) && p != [] && p <= path
      requires Synced(g, h) && Linked(g, h) && Mid(h, before, after, PrefixSet(p))
      requires Shrunk(g, g0) && p in g0 && node == g0[p] && Exactly(g, live) && live <= repr
      modifies `nodeCount, repr
      ensures Synced(g', h') && Linked(g', h') && Mid(h', before, after, PrefixSet(p[..|p| - 1]))
      ensures Shrunk(g', g0) && nodeCount - |g'| == old(nodeCount) - |g|
      ensures Exactly(g', live') && live' <= repr
    {
      var deleted;
      deleted, g', h', live' := Visit(node, seqId, g0, g, h, live, before, after, path, p, repr);
      if deleted {
        nodeCount := nodeCount - 1;
      }
    }

    /** The loop of the eviction. No node is touched after it has been deleted. */
    method Unwind(owned: seq<Node>, seqId: int, ghost g0: Graph, ghost h0: Cells, ghost live0: set<Node>,
                  ghost before: Claimants, ghost after: Claimants, ghost path: Path)
      returns (ghost g: Graph, ghost h: Cells, ghost live: set<Node>)
      requires Drops(before, after, seqId, PrefixSet(path)) && Deepest(g0, owned, path)
      requires Synced(g0, h0) && Linked(g0, h0) && Mid(h0, before, after, PrefixSet(path))
      requires Exactly(g0, live0)
      modifies `nodeCount, live0
      ensures Synced(g, h) && Linked(g, h) && Mid(h, before, after, {})
      ensures nodeCount - |g| == old(nodeCount) - |g0| && Shrunk(g, g0)
      ensures Exactly(g, live) && live <= live0
    {
      g, h, live := g0, h0, live0;
      ghost var todo := path;
      for i := 0 to |owned|
        invariant todo <= path && |todo| == |owned| - i
        invariant Synced(g, h) && Linked(g, h) && Mid(h, before, after, PrefixSet(todo))
        invariant Shrunk(g, g0) && nodeCount - |g| == old(nodeCount) - |g0|
        invariant Exactly(g, live) && live <= live0
      {
        NodeToVisit(g0, owned, path, todo, i);
        g, h, live := VisitCounted(owned[i], seqId, g0, g, h, live, before, after, path, todo, live0);
        todo := todo[..|todo| - 1];
      }
      assert todo == [] && PrefixSet(todo) == {};
    }

    method Evict(seqId: int)
      requires Valid()
      modifies this, live
      ensures Valid() && claims == PrefixClaims.Evict(old(claims), seqId)
      ensures live <= old(live)
    {
      if seqId !in seqNodes {
        EvictAbsent(claims, seqId);
        return;
      }
      var owned := seqNodes[seqId];
      ghost var g, h, l, path, after;
      path, after := EvictionStarts(claims, graph, cells, root, seqNodes, nodeCount, seqId);
      seqNodes := seqNodes - {seqId};
      g, h, l := Unwind(DeepestFirst(owned), seqId, graph, cells, live, ClaimantsOf(claims), after, path);
      EvictionEnds(claims, graph, cells, g, h, root, old(seqNodes), old(nodeCount), nodeCount, seqId,
                   ClaimantsOf(claims));
      Describe(PrefixClaims.Evict(claims, seqId), g, h, l);
    }

    /** The ghost description of the tree, once every real field has been written. */
    ghost method Describe(claims: seq<Claim>, g: Graph, h: Cells, live: set<Node>)
      requires blockSize >= 1 && Exactly(g, live) && Synced(g, h)
      requires IsTree(claims, g, h, root, seqNodes, nodeCount)
      modifies `claims, `graph, `cells, `live
      ensures Valid() && this.claims == claims && this.live == live
    {
      this.claims, this.graph, this.cells, this.live := claims, g, h, live;
    }

    /** One block of the inserted path: find the child or allocate it, and own it. */
    method AddBlock(node: Node, key: Block, seqId: int, ghost g: Graph, ghost h: Cells,
                    ghost rest: seq<Claim>, ghost p: Path, ghost live: set<Node>)
      returns (child: Node, created: bool, ghost g': Graph, ghost h': Cells)
      requires p in g && node == g[p] && Exactly(g, live)
      requires Synced(g, h) && Linked(g, h) && Holds(h, rest + [Claim(seqId, p)])
      modifies live
      ensures created ==> fresh(child) && child.path == p + [key]
      ensures Synced(g', h') && Linked(g', h') && Holds(h', rest + [Claim(seqId, p + [key])])
      ensures p + [key] in g' && child == g'[p + [key]]
      ensures created == (p + [key] !in g) && g' == if created then g[p + [key] := child] else g
    {
      StepIsChild(g, h, p, key);
      assert SyncedAt(g, h, p);
      assert node in live;
      created := key !in node.children;
      if created {
        child := LinkNode(node, key, g, h, p);
        g', h' := g[p + [key] := child], Grown(h, p, key);
      } else {
        child, g', h' := node.children[key], g, h;
      }
      assert GrewBy(h', h, p + [key]);
      OwnerAdded(g', h', h, rest, seqId, p, key);
      LinkedAtPath(g', h');
      assert SyncedAt(g', h', p + [key]);
      SetOwners(child, child.owners + [seqId], g', h');
      h' := WithOwners(h', p + [key], h'[p + [key]].owners + [seqId]);
    }

    /** The same, recording the node in the sequence's own list. */
    method ClaimBlock(node: Node, key: Block, seqId: int, ghost g: Graph, ghost h: Cells,
                  ghost rest: seq<Claim>, ghost p: Path, ghost live: set<Node>)
      returns (child: Node, ghost g': Graph, ghost h': Cells, ghost live': set<Node>)
      requires p in g && node == g[p] && Exactly(g, live) && seqId in seqNodes && OnPath(g, seqNodes[seqId], p)
      requires Synced(g, h) && Linked(g, h) && Holds(h, rest + [Claim(seqId, p)])
      modifies `nodeCount, `seqNodes, live
      ensures Synced(g', h') && Linked(g', h') && Holds(h', rest + [Claim(seqId, p + [key])])
      ensures p + [key] in g' && child == g'[p + [key]]
      ensures Exactly(g', live') && live <= live' && (forall n :: n in live' ==> n in live || fresh(n))
      ensures seqNodes == old(seqNodes)[seqId := old(seqNodes)[seqId] + [child]]
      ensures OnPath(g', seqNodes[seqId], p + [key]) && Extends(g', g) && nodeCount - |g'| == old(nodeCount) - |g|
    {
      var created;
      child, created, g', h' := AddBlock(node, key, seqId, g, h, rest, p, live);
      live' := live;
      if created {
        nodeCount := nodeCount + 1;
        live' := live + {child};
      }
      PathGrows(g', g, seqNodes[seqId], p, key, child);
      seqNodes := seqNodes[seqId := seqNodes[seqId] + [child]];
    }

    /** The loop of the insertion. */
    method Descend(tokens: seq<Token>, seqId: int, ghost g0: Graph, ghost h0: Cells, ghost rest: seq<Claim>,
                   ghost live0: set<Node>)
      returns (ghost g: Graph, ghost h: Cells, ghost live: set<Node>)
      requires blockSize >= 1 && seqId in seqNodes && seqNodes[seqId] == []
      requires Synced(g0, h0) && Linked(g0, h0) && g0[[]] == root && Holds(h0, rest) && Exactly(g0, live0)
      modifies `nodeCount, `seqNodes, live0
      ensures Synced(g, h) && Linked(g, h) && Holds(h, rest + [Claim(seqId, Blocks(tokens, blockSize))])
      ensures seqId in seqNodes && seqNodes == old(seqNodes)[seqId := seqNodes[seqId]]
      ensures OnPath(g, seqNodes[seqId], Blocks(tokens, blockSize))
      ensures Extends(g, g0) && nodeCount - |g| == old(nodeCount) - |g0|
      ensures Exactly(g, live) && live0 <= live && (forall n :: n in live ==> n in live0 || fresh(n))
    {
      ghost var path := Blocks(tokens, blockSize);
      BlockCount(tokens, blockSize);
      EmptyClaim(h0, rest, seqId);
      g, h, live := g0, h0, live0;
      var node := root;
      ghost var p: Path := [];
      for b := 0 to |tokens| / blockSize
        invariant p == path[..b] && p in g && node == g[p]
        invariant Synced(g, h) && Linked(g, h) && Holds(h, rest + [Claim(seqId, p)])
        invariant seqId in seqNodes && seqNodes == old(seqNodes)[seqId := seqNodes[seqId]]
        invariant OnPath(g, seqNodes[seqId], p) && Extends(g, g0) && nodeCount - |g| == old(nodeCount) - |g0|
        invariant Exactly(g, live) && live0 <= live && (forall n :: n in live ==> n in live0 || fresh(n))
      {
        var key := Key(tokens, b);
        node, g, h, live := ClaimBlock(node, key, seqId, g, h, rest, p, live);
        p := p + [key];
      }
      assert p == path;
    }

    /** Publish for a sequence that holds no claim. */
    method Publish(tokens: seq<Token>, seqId: int)
      requires Valid() && forall i :: 0 <= i < |claims| ==> claims[i].owner != seqId
      modifies this, live
      ensures Valid() && claims == old(claims) + [Claim(seqId, Blocks(tokens, blockSize))]
      ensures live >= old(live) && (forall n :: n in live ==> n in old(live) || fresh(n))
    {
      seqNodes := seqNodes[seqId := []];
      ghost var blocks := Blocks(tokens, blockSize);
      ghost var g, h, l := Descend(tokens, seqId, graph, cells, claims, live);
      InsertionEnds(claims, graph, cells, g, h, root, old(seqNodes), old(nodeCount), nodeCount, seqId, blocks,
                    seqNodes[seqId]);
      UpdateTwice(old(seqNodes), seqId, [], seqNodes[seqId]);
      Describe(claims + [Claim(seqId, blocks)], g, h, l);
    }

    method Insert(tokens: seq<Token>, seqId: int) returns (published: int)
      requires Valid()
      modifies this, live
      ensures Valid() && claims == PrefixClaims.Insert(old(claims), seqId, Blocks(tokens, blockSize))
      ensures published == |Blocks(tokens, blockSize)| * blockSize
      ensures |tokens| < blockSize ==> claims == old(claims) && published == 0
      ensures published == |tokens| / blockSize * blockSize
      ensures (forall n :: n in live ==> n in old(live) || fresh(n))
    {
      if |tokens| < blockSize {
        WholeBlocks(tokens, blockSize);
        return 0;
      }
      BlockCount(tokens, blockSize);
      Evict(seqId);
      EvictedIsAbsent(old(claims), seqId);
      Publish(tokens, seqId);
      published := (|tokens| / blockSize) * blockSize;
    }

    method NodeCount() returns (n: int)
      requires Valid()
      ensures n == |Prefixes(claims)|
    {
      NodesAreClaimedPrefixes(graph, cells, claims);
      n := nodeCount;
    }

    method SeqCount() returns (n: int)
      requires Valid()
      ensures n == |claims|
    {
      ListsAreClaims(graph, claims, seqNodes);
      n := |seqNodes|;
    }
  }
}
