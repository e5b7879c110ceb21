/** What the two radix trees have in common: the heap node and the relation between a
    graph of nodes and the claims it stands for.

    A tree is described by the ghost map from block path to node. The map is not part
    of either implementation: it names the object that a walk along the path reaches. */
module RadixTree {
  import opened PrefixClaims

  class Node {
    const parent: Node?
    const key: Block
    const depth: nat
    ghost const path: Path
    var children: map<Block, Node>
    var owners: seq<int>

    constructor Root()
      ensures parent == null && depth == 0 && path == [] && children == map[] && owners == []
    {
      parent, key, depth, path, children, owners := null, [], 0, [], map[], [];
    }

    constructor Child(parent: Node, key: Block)
      ensures this.parent == parent && this.key == key && depth == parent.depth + 1
      ensures path == parent.path + [key] && children == map[] && owners == []
    {
      this.parent, this.key, this.depth := parent, key, parent.depth + 1;
      this.path, this.children, this.owners := parent.path + [key], map[], [];
    }
  }

  /** Write the owner list of a node. */
  method SetOwners(node: Node, owners: seq<int>, ghost g: Graph, ghost h: Cells)
    requires Synced(g, h) && AtPath(g) && node.path in g && g[node.path] == node
    modifies node
    ensures Synced(g, WithOwners(h, node.path, owners))
    ensures node.owners == owners && node.children == old(node.children)
  {
    node.owners := owners;
    ghost var h' := WithOwners(h, node.path, owners);
    forall q | q in g ensures SyncedAt(g, h', q) {
      assert old(SyncedAt(g, h, q));
    }
  }

  /** Take a leaf out of its parent's child map. */
  method UnlinkNode(node: Node, ghost g: Graph, ghost h: Cells, ghost p: Path)
    requires p != [] && p in h && p[..|p| - 1] in h && Linked(g, h) && h[p].kids == {}
    requires Synced(g, WithOwners(h, p, []))
    requires node == g[p] && node.parent == g[p[..|p| - 1]] && node.key == p[|p| - 1]
    modifies g[p[..|p| - 1]]
    ensures Synced(g - {p}, Unlinked(h, p))
  {
    LinkedAtPath(g, h);
    ghost var g', h' := g - {p}, Unlinked(h, p);
    ghost var up := p[..|p| - 1];
    if node.parent != null {
      node.parent.children := node.parent.children - {node.key};
    }
    forall q | q in g' ensures SyncedAt(g', h', q) {
      assert old(SyncedAt(g, WithOwners(h, p, []), q));
      forall k | k in g'[q].children ensures q + [k] != p {
        assert (q + [k])[..|q|] == q && (q + [k])[|q|] == k;
      }
    }
  }

  /** Create a node and link it below its parent. */
  method LinkNode(node: Node, key: Block, ghost g: Graph, ghost h: Cells, ghost up: Path) returns (child: Node)
    requires Synced(g, h) && Linked(g, h) && up in g && node == g[up] && up + [key] !in g
    modifies node
    ensures fresh(child)
    ensures var g', h' := g[up + [key] := child], Grown(h, up, key);
            Synced(g', h') && Linked(g', h')
    ensures child.children == map[] && child.owners == []
  {
    LinkedAtPath(g, h);
    assert LinkedAt(g, h, up);
    child := new Node.Child(node, key);
    GrownLinked(g, h, up, key, child);
    ghost var g', h' := g[up + [key] := child], Grown(h, up, key);
    assert forall q {:trigger g[q]} :: q in g ==> g[q] != child && (g[q] == node ==> q == up);
    node.children := node.children[key := child];
    forall q | q in g' ensures SyncedAt(g', h', q) {
      assert old(q in g ==> SyncedAt(g, h, q));
    }
  }

  type Graph = map<Path, Node>

  ghost predicate Within(g: Graph, repr: set<Node>)
  {
    forall p {:trigger g[p]} :: p in g ==> g[p] in repr
  }

  ghost predicate AtPath(g: Graph)
  {
    forall p {:trigger g[p]} :: p in g ==> g[p].path == p
  }

  /** What the proofs need of a node's mutable part: the keys of its children, and its owners. */
  datatype Cell = Cell(kids: set<Block>, owners: seq<int>)
  type Cells = map<Path, Cell>

  /** The object at p carries what its cell says, and its links lead one block further. */
  ghost predicate SyncedAt(g: Graph, h: Cells, p: Path)
    requires p in g && p in h
    reads g[p]
  {
    && g[p].owners == h[p].owners
    && g[p].children.Keys == h[p].kids
    && forall k :: k in g[p].children ==> p + [k] in g && g[p].children[k] == g[p + [k]]
  }

  ghost predicate Synced(g: Graph, h: Cells)
    reads g.Values
  {
    g.Keys == h.Keys && forall p {:trigger SyncedAt(g, h, p)} :: p in g ==> SyncedAt(g, h, p)
  }

  /** A node sits at its own path and is listed by its parent under its own key. */
  ghost predicate LinkedAt(g: Graph, h: Cells, p: Path)
    requires g.Keys == h.Keys
  {
    p in g ==>
      && g[p].path == p && g[p].depth == |p|
      && (p == [] ==> g[p].parent == null)
      && (p != [] ==>
            && p[..|p| - 1] in g && g[p].parent == g[p[..|p| - 1]] && g[p].key == p[|p| - 1]
            && g[p].key in h[p[..|p| - 1]].kids)
      && (forall k :: k in h[p].kids ==> p + [k] in g)
  }

  ghost predicate Linked(g: Graph, h: Cells)
  {
    g.Keys == h.Keys && [] in g && forall p {:trigger LinkedAt(g, h, p)} :: LinkedAt(g, h, p)
  }

  /** A node exists exactly for a claimed prefix (and for the root), and its owner list is
      exactly the claimants of that prefix, in publishing order. */
  ghost predicate HoldsAt(h: Cells, claims: seq<Claim>, p: Path)
  {
    && (p in h <==> p == [] || Owners(claims, p) != [])
    && (p in h ==> h[p].owners == if p == [] then [] else Owners(claims, p))
  }

  ghost predicate Holds(h: Cells, claims: seq<Claim>)
  {
    forall p {:trigger HoldsAt(h, claims, p)} :: HoldsAt(h, claims, p)
  }

  /** The node list of one claim: the nodes on its path, shallowest first. */
  ghost predicate OnPath(g: Graph, nodes: seq<Node>, path: Path)
  {
    && |nodes| == |path|
    && forall j {:trigger path[..j]} :: 1 <= j <= |path| ==> path[..j] in g && nodes[j - 1] == g[path[..j]]
  }

  /** The per-sequence node lists: one list per claim. */
  ghost predicate Indexed(g: Graph, claims: seq<Claim>, index: map<int, seq<Node>>)
  {
    && (forall i {:trigger claims[i]} :: 0 <= i < |claims| ==>
          claims[i].owner in index && OnPath(g, index[claims[i].owner], claims[i].blocks))
    && (forall id :: id in index ==> exists i :: 0 <= i < |claims| && claims[i].owner == id)
  }

  lemma LinkedAtPath(g: Graph, h: Cells)
    requires Linked(g, h)
    ensures AtPath(g)
  {
    forall p | p in g ensures g[p].path == p {
      assert LinkedAt(g, h, p);
    }
  }

  /** A walk that cannot continue has found the longest claimed prefix. */
  lemma LongestWalk(g: Graph, h: Cells, claims: seq<Claim>, blocks: Path, m: nat)
    requires Linked(g, h) && Holds(h, claims)
    requires m <= |blocks| && blocks[..m] in g
    requires m < |blocks| ==> blocks[m] !in h[blocks[..m]].kids
    ensures m == MatchLen(claims, blocks)
    ensures m > 0 ==> h[blocks[..m]].owners == Owners(claims, blocks[..m]) != []
  {
    WalkMatches(h, claims, blocks, m);
    if m < |blocks| {
      StepIsChild(g, h, blocks[..m], blocks[m]);
      assert blocks[..m + 1] == blocks[..m] + [blocks[m]];
      WalkMatches(h, claims, blocks, m + 1);
    }
  }

  /** A prefix of the query has a node exactly if it is no longer than the match. */
  lemma WalkMatches(h: Cells, claims: seq<Claim>, blocks: Path, m: nat)
    requires Holds(h, claims) && m <= |blocks|
    ensures blocks[..m] in h <==> m <= MatchLen(claims, blocks)
    ensures m > 0 && blocks[..m] in h ==> h[blocks[..m]].owners == Owners(claims, blocks[..m]) != []
  {
    assert HoldsAt(h, claims, blocks[..m]);
    if m > 0 { MatchIsLongest(claims, blocks, m); }
  }

  lemma StepIsChild(g: Graph, h: Cells, p: Path, key: Block)
    requires Linked(g, h) && p in g
    ensures key in h[p].kids <==> p + [key] in g
  {
    assert (p + [key])[..|p|] == p;
    assert LinkedAt(g, h, p + [key]) && LinkedAt(g, h, p);
  }

  // ---------------------------------------------------------------- eviction, half way

  /** Who claims a prefix, as a function of the prefix. */
  type Claimants = Path -> seq<int>

  ghost function ClaimantsOf(claims: seq<Claim>): Claimants
  {
    p => Owners(claims, p)
  }

  /** `after` is `before` without the sequence `id`, which claimed the prefixes in `mine`. */
  ghost predicate DropsAt(before: Claimants, after: Claimants, id: int, mine: set<Path>, p: Path)
  {
    && (if p in mine then id in before(p) && after(p) == RemoveFirst(before(p), id) else p != [] ==>
        after(p) == before(p))
    && forall k {:trigger p + [k]} :: after(p + [k]) != [] ==> after(p) != []
  }

  ghost predicate Drops(before: Claimants, after: Claimants, id: int, mine: set<Path>)
  {
    [] !in mine && forall p {:trigger DropsAt(before, after, id, mine, p)} :: DropsAt(before, after, id, mine, p)
  }

  /** The non-empty prefixes of one path. */
  ghost function PrefixSet(path: Path): (paths: set<Path>)
    ensures [] !in paths
  {
    set j | 1 <= j <= |path| :: path[..j]
  }

  lemma PrefixSetMember(path: Path, p: Path)
    ensures p in PrefixSet(path) <==> p != [] && p <= path
  {
    if p <= path { assert p == path[..|p|]; }
  }

  lemma EvictDrops(claims: seq<Claim>, i: nat)
    requires DistinctOwners(claims) && i < |claims|
    ensures Drops(ClaimantsOf(claims), ClaimantsOf(Evict(claims, claims[i].owner)), claims[i].owner,
                  PrefixSet(claims[i].blocks))
  {
    var id, mine := claims[i].owner, PrefixSet(claims[i].blocks);
    var before, after := ClaimantsOf(claims), ClaimantsOf(Evict(claims, id));
    forall p ensures DropsAt(before, after, id, mine, p) {
      EvictEffect(claims, i, p);
      PrefixSetMember(claims[i].blocks, p);
      forall k {:trigger p + [k]} | after(p + [k]) != [] ensures after(p) != [] {
        PathsClosed(Evict(claims, id), p, p + [k]);
      }
    }
  }

  /** The graph during an eviction, with the nodes in `todo` still to be visited. */
  ghost predicate MidAt(h: Cells, before: Claimants, after: Claimants, todo: set<Path>, p: Path)
  {
    && (p in h <==> p == [] || p in todo || after(p) != [])
    && (p in h ==> h[p].owners == if p == [] then [] else if p in todo then before(p) else after(p))
  }

  ghost predicate Mid(h: Cells, before: Claimants, after: Claimants, todo: set<Path>)
  {
    forall p {:trigger MidAt(h, before, after, todo, p)} :: MidAt(h, before, after, todo, p)
  }

  lemma MidStart(h: Cells, claims: seq<Claim>, after: Claimants, id: int, mine: set<Path>)
    requires Holds(h, claims) && Drops(ClaimantsOf(claims), after, id, mine)
    ensures Mid(h, ClaimantsOf(claims), after, mine)
  {
    var before := ClaimantsOf(claims);
    forall p ensures MidAt(h, before, after, mine, p) {
      assert HoldsAt(h, claims, p) && DropsAt(before, after, id, mine, p);
    }
  }

  lemma MidEnd(h: Cells, before: Claimants, claims: seq<Claim>)
    requires Mid(h, before, ClaimantsOf(claims), {})
    ensures Holds(h, claims)
  {
    forall p ensures HoldsAt(h, claims, p) {
      assert MidAt(h, before, ClaimantsOf(claims), {}, p);
    }
  }

  /** A deepest node of those still to be visited. */
  ghost predicate IsNext(todo: set<Path>, mine: set<Path>, p: Path)
  {
    p in todo && todo <= mine && forall k {:trigger p + [k]} :: p + [k] !in todo
  }

  /** The node the loop visits next, and its parent. A node that loses its last owner has
      no child left, so no upward cascade is needed. */
  lemma VisitedNode(g: Graph, h: Cells, before: Claimants, after: Claimants, id: int, mine: set<Path>,
                    todo: set<Path>, p: Path)
    requires Drops(before, after, id, mine) && IsNext(todo, mine, p)
    requires Linked(g, h) && Mid(h, before, after, todo)
    ensures p != [] && p in g && p[..|p| - 1] in g && AtPath(g)
    ensures g[p].parent == g[p[..|p| - 1]] && g[p].key == p[|p| - 1]
    ensures id in h[p].owners && RemoveFirst(h[p].owners, id) == after(p)
    ensures after(p) == [] ==> h[p].kids == {}
  {
    LinkedAtPath(g, h);
    assert MidAt(h, before, after, todo, p) && LinkedAt(g, h, p) && DropsAt(before, after, id, mine, p);
    if after(p) == [] {
      forall k ensures k !in h[p].kids {
        assert MidAt(h, before, after, todo, p + [k]);
      }
    }
  }

  ghost function WithOwners(h: Cells, p: Path, owners: seq<int>): Cells
    requires p in h
  {
    h[p := h[p].(owners := owners)]
  }

  /** Only the owner list of the visited node changed, and somebody else owns it still. */
  lemma KeptNode(g: Graph, h: Cells, before: Claimants, after: Claimants, todo: set<Path>, p: Path)
    requires Linked(g, h) && p != [] && p in todo && p in h && Mid(h, before, after, todo) && after(p) != []
    ensures var h' := WithOwners(h, p, after(p));
            Linked(g, h') && Mid(h', before, after, todo - {p})
  {
    var h', todo' := WithOwners(h, p, after(p)), todo - {p};
    forall q ensures LinkedAt(g, h', q) {
      assert LinkedAt(g, h, q);
    }
    forall q ensures MidAt(h', before, after, todo', q) {
      assert MidAt(h, before, after, todo, q);
    }
  }

  /** The visited node lost its last owner: it is unlinked and leaves the graph. */
  lemma RemovedNode(g: Graph, h: Cells, before: Claimants, after: Claimants, todo: set<Path>, p: Path)
    requires Linked(g, h) && p != [] && p in todo && p in h && p[..|p| - 1] in h && Mid(h, before, after, todo)
    requires after(p) == [] && h[p].kids == {}
    ensures Linked(g - {p}, Unlinked(h, p)) && Mid(Unlinked(h, p), before, after, todo - {p})
  {
    var up, g', h', todo' := p[..|p| - 1], g - {p}, Unlinked(h, p), todo - {p};
    assert LinkedAt(g, h, p);
    forall q ensures LinkedAt(g', h', q) {
      assert LinkedAt(g, h, q);
      if q in g' {
        assert q != [] ==> q == q[..|q| - 1] + [q[|q| - 1]];
        assert p == up + [p[|p| - 1]];
        forall k | k in h'[q].kids ensures q + [k] in g' {
          assert (q + [k])[..|q|] == q && (q + [k])[|q|] == k;
        }
      }
    }
    forall q ensures MidAt(h', before, after, todo', q) {
      assert MidAt(h, before, after, todo, q);
    }
  }

  /** The cells without the node at p and without its link from above. */
  ghost function Unlinked(h: Cells, p: Path): (r: Cells)
    requires p != [] && p in h && p[..|p| - 1] in h
  {
    var up := p[..|p| - 1];
    h[up := h[up].(kids := h[up].kids - {p[|p| - 1]})] - {p}
  }

  ghost predicate Shrunk(g: Graph, g0: Graph)
  {
    forall p :: p in g ==> p in g0 && g[p] == g0[p]
  }

  /** A surviving node list still names the nodes on its own path. */
  lemma PathSurvives(g: Graph, h: Cells, g0: Graph, rest: seq<Claim>, a: nat, nodes: seq<Node>)
    requires h.Keys == g.Keys && Holds(h, rest) && Shrunk(g, g0)
    requires a < |rest| && OnPath(g0, nodes, rest[a].blocks)
    ensures OnPath(g, nodes, rest[a].blocks)
  {
    var c := rest[a];
    forall j | 1 <= j <= |c.blocks|
      ensures c.blocks[..j] in g && nodes[j - 1] == g[c.blocks[..j]]
    {
      OwnersMembers(rest, c.blocks[..j], c.owner);
      assert HoldsAt(h, rest, c.blocks[..j]);
    }
  }

  lemma IndexAfterEvict(g: Graph, h: Cells, g0: Graph, claims: seq<Claim>, id: int, index: map<int, seq<Node>>)
    requires h.Keys == g.Keys && Holds(h, Evict(claims, id)) && Shrunk(g, g0)
    requires Indexed(g0, claims, index)
    ensures Indexed(g, Evict(claims, id), index - {id})
  {
    var rest, index' := Evict(claims, id), index - {id};
    forall a | 0 <= a < |rest|
      ensures rest[a].owner in index' && OnPath(g, index'[rest[a].owner], rest[a].blocks)
    {
      EvictMembers(claims, id, rest[a]);
      var b :| 0 <= b < |claims| && claims[b] == rest[a];
      PathSurvives(g, h, g0, rest, a, index[claims[b].owner]);
    }
    forall x | x in index'
      ensures exists a :: 0 <= a < |rest| && rest[a].owner == x
    {
      var b :| 0 <= b < |claims| && claims[b].owner == x;
      EvictMembers(claims, id, claims[b]);
      var a :| 0 <= a < |rest| && rest[a] == claims[b];
    }
  }

  // ---------------------------------------------------------------- insertion, half way

  lemma ShorterPrefix(p: Path, q: Path)
    requires p != []
    ensures q <= p[..|p| - 1] <==> q <= p && q != p
  {
    if q <= p && q != p {
      assert |q| < |p| ==> p[..|p| - 1][..|q|] == p[..|q|];
    }
    if q <= p[..|p| - 1] {
      assert p[..|q|] == p[..|p| - 1][..|q|];
    }
  }

  /** Claiming one block more touches the owners of that one prefix only. */
  lemma LongerClaim(rest: seq<Claim>, id: int, p: Path, key: Block, q: Path)
    ensures var a, b := rest + [Claim(id, p)], rest + [Claim(id, p + [key])];
            Owners(b, q) == if q == p + [key] then Owners(a, q) + [id] else Owners(a, q)
  {
    var a, b := rest + [Claim(id, p)], rest + [Claim(id, p + [key])];
    assert a[..|rest|] == rest && b[..|rest|] == rest;
    ShorterPrefix(p + [key], q);
    assert (p + [key])[..|p|] == p;
  }

  /** The cells with a fresh, empty node linked below `up`. */
  ghost function Grown(h: Cells, up: Path, key: Block): (r: Cells)
    requires up in h
  {
    h[up := h[up].(kids := h[up].kids + {key})][up + [key] := Cell({}, [])]
  }

  lemma GrownLinked(g: Graph, h: Cells, up: Path, key: Block, child: Node)
    requires Linked(g, h) && up in g && up + [key] !in g
    requires child.parent == g[up] && child.key == key && child.path == up + [key] && child.depth == |up| + 1
    ensures Linked(g[up + [key] := child], Grown(h, up, key))
  {
    var p := up + [key];
    var g', h' := g[p := child], Grown(h, up, key);
    assert p[..|p| - 1] == up;
    assert LinkedAt(g, h, up);
    forall q ensures LinkedAt(g', h', q) {
      assert LinkedAt(g, h, q);
      if q in g' && q != p {
        forall k | k in h'[q].kids ensures q + [k] in g' {
          assert (q + [k])[..|q|] == q && (q + [k])[|q|] == k;
        }
      }
    }
  }

  /** Growing a leaf and nothing else: every other owner list is as it was. */
  ghost predicate GrewBy(h: Cells, h0: Cells, p: Path)
  {
    && p in h && h[p].owners == (if p in h0 then h0[p].owners else [])
    && forall q {:trigger q in h} :: q != p ==> (q in h <==> q in h0) && (q in h ==> h[q].owners == h0[q].owners)
  }

  /** Adding the owner to the node on the path, new or old, claims one block more. */
  lemma OwnerAdded(g: Graph, h: Cells, h0: Cells, rest: seq<Claim>, id: int, p: Path, key: Block)
    requires Holds(h0, rest + [Claim(id, p)])
    requires Linked(g, h) && GrewBy(h, h0, p + [key])
    ensures var h' := WithOwners(h, p + [key], h[p + [key]].owners + [id]);
            Linked(g, h') && Holds(h', rest + [Claim(id, p + [key])])
  {
    var p' := p + [key];
    var h' := WithOwners(h, p', h[p'].owners + [id]);
    forall q ensures LinkedAt(g, h', q) {
      assert LinkedAt(g, h, q);
    }
    forall q ensures HoldsAt(h', rest + [Claim(id, p')], q) {
      assert HoldsAt(h0, rest + [Claim(id, p)], q);
      LongerClaim(rest, id, p, key, q);
      var _ := q in h;
    }
  }

  lemma EmptyClaim(h: Cells, rest: seq<Claim>, id: int)
    requires Holds(h, rest)
    ensures Holds(h, rest + [Claim(id, [])])
  {
    var all := rest + [Claim(id, [])];
    assert all[..|rest|] == rest;
    forall q ensures HoldsAt(h, all, q) {
      assert HoldsAt(h, rest, q);
    }
  }

  ghost predicate Extends(g: Graph, g0: Graph)
  {
    forall p :: p in g0 ==> p in g && g[p] == g0[p]
  }

  /** The node list grows with the path. */
  lemma PathGrows(g: Graph, g1: Graph, owned: seq<Node>, p: Path, key: Block, node: Node)
    requires OnPath(g1, owned, p)
    requires p + [key] in g && g[p + [key]] == node
    requires g == g1 || (p + [key] !in g1 && g == g1[p + [key] := node])
    ensures OnPath(g, owned + [node], p + [key]) && Extends(g, g1)
    ensures |g| == if p + [key] in g1 then |g1| else |g1| + 1
  {
    var p' := p + [key];
    forall i | 1 <= i <= |p'| ensures p'[..i] in g && (owned + [node])[i - 1] == g[p'[..i]] {
      if i == |p'| {
        assert p'[..i] == p';
      } else {
        assert p'[..i] == p[..i];
      }
    }
    if p' !in g1 {
      assert g.Keys == g1.Keys + {p'};
    }
  }

  lemma PathExtends(g: Graph, g0: Graph, nodes: seq<Node>, path: Path)
    requires Extends(g, g0) && OnPath(g0, nodes, path)
    ensures OnPath(g, nodes, path)
  {
  }

  lemma IndexAfterInsert(g: Graph, g0: Graph, rest: seq<Claim>, id: int, path: Path, index: map<int, seq<Node>>,
                         owned: seq<Node>)
    requires Indexed(g0, rest, index) && Extends(g, g0) && OnPath(g, owned, path)
    requires forall i :: 0 <= i < |rest| ==> rest[i].owner != id
    ensures Indexed(g, rest + [Claim(id, path)], index[id := owned])
  {
    var all, index' := rest + [Claim(id, path)], index[id := owned];
    forall a | 0 <= a < |all|
      ensures all[a].owner in index' && OnPath(g, index'[all[a].owner], all[a].blocks)
    {
      if a < |rest| {
        assert all[a] == rest[a];
        PathExtends(g, g0, index[rest[a].owner], rest[a].blocks);
      }
    }
    forall x | x in index'
      ensures exists a :: 0 <= a < |all| && all[a].owner == x
    {
      if x == id {
        assert all[|rest|].owner == x;
      } else {
        var b :| 0 <= b < |rest| && rest[b].owner == x;
        assert all[b].owner == x;
      }
    }
  }

  // ---------------------------------------------------------------- the whole structure

  /** Claims, graph and cells describe one tree; `index` and `count` are its bookkeeping. */
  ghost predicate IsTree(claims: seq<Claim>, g: Graph, h: Cells, root: Node, index: map<int, seq<Node>>, count: int)
  {
    && DistinctOwners(claims)
    && Linked(g, h) && g[[]] == root
    && Holds(h, claims)
    && Indexed(g, claims, index)
    && count == |g| - 1
  }

  lemma EmptyTree(root: Node)
    requires root.parent == null && root.depth == 0 && root.path == []
    ensures IsTree([], map[[] := root], map[[] := Cell({}, [])], root, map[], 0)
  {
    var g, h := map[[] := root], map[[] := Cell({}, [])];
    forall p ensures LinkedAt(g, h, p) {}
    forall p ensures HoldsAt(h, [], p) {}
  }

  lemma UpdateTwice(index: map<int, seq<Node>>, id: int, a: seq<Node>, b: seq<Node>)
    ensures index[id := a][id := b] == index[id := b]
  {
  }

  /** Before the eviction loop: the sequence's nodes, deepest first, are its claim. */
  lemma EvictionStarts(claims: seq<Claim>, g: Graph, h: Cells, root: Node, index: map<int, seq<Node>>, count: int,
                       id: int)
    returns (path: Path, after: Claimants)
    requires IsTree(claims, g, h, root, index, count) && id in index
    ensures after == ClaimantsOf(Evict(claims, id))
    ensures Drops(ClaimantsOf(claims), after, id, PrefixSet(path))
    ensures Mid(h, ClaimantsOf(claims), after, PrefixSet(path))
    ensures Deepest(g, DeepestFirst(index[id]), path)
  {
    var i: nat :| i < |claims| && claims[i].owner == id;
    path, after := claims[i].blocks, ClaimantsOf(Evict(claims, id));
    EvictDrops(claims, i);
    MidStart(h, claims, after, id, PrefixSet(path));
    PathSorts(g, h, index[id], path);
  }

  /** After it: the tree of the remaining claims. */
  lemma EvictionEnds(claims: seq<Claim>, g0: Graph, h0: Cells, g: Graph, h: Cells, root: Node,
                     index: map<int, seq<Node>>, count0: int, count: int, id: int, before: Claimants)
    requires IsTree(claims, g0, h0, root, index, count0)
    requires Linked(g, h) && Mid(h, before, ClaimantsOf(Evict(claims, id)), {})
    requires Shrunk(g, g0) && count - |g| == count0 - |g0|
    ensures IsTree(Evict(claims, id), g, h, root, index - {id}, count)
  {
    MidEnd(h, before, Evict(claims, id));
    IndexAfterEvict(g, h, g0, claims, id, index);
    EvictDistinct(claims, id);
    assert [] in g;
  }

  lemma InsertionEnds(rest: seq<Claim>, g0: Graph, h0: Cells, g: Graph, h: Cells, root: Node,
                      index: map<int, seq<Node>>, count0: int, count: int, id: int, path: Path, owned: seq<Node>)
    requires IsTree(rest, g0, h0, root, index, count0)
    requires forall i :: 0 <= i < |rest| ==> rest[i].owner != id
    requires Linked(g, h) && Holds(h, rest + [Claim(id, path)])
    requires Extends(g, g0) && OnPath(g, owned, path) && count - |g| == count0 - |g0|
    ensures IsTree(rest + [Claim(id, path)], g, h, root, index[id := owned], count)
  {
    IndexAfterInsert(g, g0, rest, id, path, index, owned);
    assert [] in g0;
  }

  // ---------------------------------------------------------------- counting

  /** The number of nodes below the root is the number of distinct claimed prefixes. */
  lemma NodesAreClaimedPrefixes(g: Graph, h: Cells, claims: seq<Claim>)
    requires Linked(g, h) && Holds(h, claims)
    ensures g.Keys - {[]} == Prefixes(claims) && |g| - 1 == |Prefixes(claims)|
  {
    forall p ensures p in g.Keys - {[]} <==> p in Prefixes(claims) {
      assert HoldsAt(h, claims, p);
      PrefixesAreOwned(claims, p);
    }
  }

  /** One list per claim, so as many lists as claims. */
  lemma {:induction false} ListsAreClaims(g: Graph, claims: seq<Claim>, index: map<int, seq<Node>>)
    requires DistinctOwners(claims) && Indexed(g, claims, index)
    ensures |index| == |claims|
  {
    if claims != [] {
      var n := |claims| - 1;
      var rest, id := claims[..n], claims[n].owner;
      var index' := index - {id};
      forall x | x in index' ensures exists a :: 0 <= a < |rest| && rest[a].owner == x {
        var b :| 0 <= b < |claims| && claims[b].owner == x;
        assert rest[b].owner == x;
      }
      forall a | 0 <= a < |rest|
        ensures rest[a].owner in index' && OnPath(g, index'[rest[a].owner], rest[a].blocks)
      {
        assert rest[a] == claims[a];
      }
      ListsAreClaims(g, rest, index');
      assert index'.Keys == index.Keys - {id};
    } else {
      forall x ensures x !in index {}
      assert index == map[];
    }
  }

  // ---------------------------------------------------------------- sorting

  /** Deepest first, stable: insertion sort on the depth. */
  function DeepestFirst(nodes: seq<Node>): (sorted: seq<Node>)
  {
    if nodes == [] then [] else InsertByDepth(DeepestFirst(nodes[..|nodes| - 1]), nodes[|nodes| - 1])
  }

  function InsertByDepth(sorted: seq<Node>, node: Node): (r: seq<Node>)
  {
    if sorted == [] || sorted[0].depth < node.depth then [node] + sorted
    else [sorted[0]] + InsertByDepth(sorted[1..], node)
  }

  /** On a path the sort is a reversal. */
  lemma {:induction false} DeepestFirstReverses(nodes: seq<Node>)
    requires forall i :: 0 <= i < |nodes| ==> nodes[i].depth == i + 1
    ensures |DeepestFirst(nodes)| == |nodes|
    ensures forall i :: 0 <= i < |nodes| ==> DeepestFirst(nodes)[i] == nodes[|nodes| - 1 - i]
  {
    if nodes != [] {
      DeepestFirstReverses(nodes[..|nodes| - 1]);
    }
  }

  /** The nodes of a path, deepest first. */
  ghost predicate Deepest(g: Graph, sorted: seq<Node>, path: Path)
  {
    && |sorted| == |path|
    && forall n {:trigger sorted[n]} :: 0 <= n < |sorted| ==>
         path[..|path| - n] in g && sorted[n] == g[path[..|path| - n]]
  }

  lemma PathSorts(g: Graph, h: Cells, nodes: seq<Node>, path: Path)
    requires Linked(g, h) && OnPath(g, nodes, path)
    ensures Deepest(g, DeepestFirst(nodes), path)
  {
    forall j | 0 <= j < |nodes| ensures nodes[j].depth == j + 1 {
      assert LinkedAt(g, h, path[..j + 1]);
    }
    DeepestFirstReverses(nodes);
    var sorted := DeepestFirst(nodes);
    forall n | 0 <= n < |sorted|
      ensures path[..|path| - n] in g && sorted[n] == g[path[..|path| - n]]
    {
    }
  }

  /** The n-th node in that order. */
  lemma NodeToVisit(g: Graph, sorted: seq<Node>, path: Path, p: Path, n: nat)
    requires Deepest(g, sorted, path) && n < |sorted| && p <= path && |p| == |sorted| - n
    ensures p in g && sorted[n] == g[p]
  {
    var _ := sorted[n];
    assert p == path[..|path| - n];
  }

  /** When p comes next, the prefixes still to do are those not longer than p. */
  lemma LongestIsNext(path: Path, p: Path)
    requires p != [] && p <= path
    ensures IsNext(PrefixSet(p), PrefixSet(path), p)
    ensures PrefixSet(p) - {p} == PrefixSet(p[..|p| - 1])
  {
    var up := p[..|p| - 1];
    forall q ensures q in PrefixSet(p) ==> q in PrefixSet(path) {
      PrefixSetMember(p, q);
      PrefixSetMember(path, q);
    }
    forall q ensures q in PrefixSet(p) - {p} <==> q in PrefixSet(up) {
      PrefixSetMember(p, q);
      PrefixSetMember(up, q);
      ShorterPrefix(p, q);
    }
    PrefixSetMember(p, p);
    forall k {:trigger p + [k]} ensures p + [k] !in PrefixSet(p) {
      PrefixSetMember(p, p + [k]);
    }
  }

  lemma FewerNodes(g: Graph, p: Path)
    ensures p in g ==> |g - {p}| == |g| - 1
  {
    assert (g - {p}).Keys == g.Keys - {p};
  }
}
