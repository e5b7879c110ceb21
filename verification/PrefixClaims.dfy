/** The abstract prefix cache: an insertion-ordered list of claims.

    A claim says that one sequence has published the whole blocks of its prompt.
    Both radix trees (tinyserve/prefix/cache.py and native/src/prefix_cache.cpp)
    are proved against this list: which prefixes exist, who owns each of them and
    what a lookup answers are all read off the claims, without any tree. */
module PrefixClaims {
  import opened Requests

  type Block = seq<Token>
  type Path = seq<Block>

  /** The answer for "no sequence holds this". */
  const NO_SEQ: int := -1

  datatype Claim = Claim(owner: int, blocks: Path)
  datatype PrefixMatch = PrefixMatch(nTokens: nat, seqId: int)

  // ---------------------------------------------------------------- blocks

  lemma MulMono(a: nat, b: nat, c: nat)
    requires a <= b
    ensures a * c <= b * c
  {
    assert b * c == a * c + (b - a) * c;
  }

  lemma DivBounds(n: nat, d: nat)
    requires d >= 1
    ensures (n / d) * d <= n < (n / d) * d + d
  {
    assert n == d * (n / d) + n % d;
  }

  lemma DivUnique(n: nat, d: nat, q: nat)
    requires d >= 1 && q * d <= n < q * d + d
    ensures n / d == q
  {
    DivBounds(n, d);
    var k := n / d;
    assert (k + 1) * d == k * d + d && (q + 1) * d == q * d + d;
    if k < q {
      MulMono(k + 1, q, d);
    } else if q < k {
      MulMono(q + 1, k, d);
    }
  }

  /** The whole blocks of a token list; a shorter tail is dropped. */
  function Blocks(tokens: seq<Token>, bs: nat): (blocks: Path)
    requires bs >= 1
  {
    if |tokens| < bs then [] else [tokens[..bs]] + Blocks(tokens[bs..], bs)
  }

  /** There are |tokens| / bs of them, and block i is the slice [i * bs, (i + 1) * bs). */
  lemma {:induction false} BlockCount(tokens: seq<Token>, bs: nat)
    requires bs >= 1
    ensures |Blocks(tokens, bs)| * bs <= |tokens| < |Blocks(tokens, bs)| * bs + bs
    ensures |Blocks(tokens, bs)| == |tokens| / bs
  {
    var n := |Blocks(tokens, bs)|;
    if |tokens| >= bs {
      BlockCount(tokens[bs..], bs);
      assert n * bs == (n - 1) * bs + bs;
    }
    DivUnique(|tokens|, bs, n);
  }

  lemma {:induction false} BlockAt(tokens: seq<Token>, bs: nat, i: nat)
    requires bs >= 1 && i < |Blocks(tokens, bs)|
    ensures 0 <= i * bs && (i + 1) * bs == i * bs + bs <= |tokens|
    ensures Blocks(tokens, bs)[i] == tokens[i * bs .. (i + 1) * bs]
  {
    BlockCount(tokens, bs);
    MulMono(i + 1, |Blocks(tokens, bs)|, bs);
    assert (i + 1) * bs == i * bs + bs;
    if i > 0 {
      BlockAt(tokens[bs..], bs, i - 1);
      assert i * bs == (i - 1) * bs + bs;
      assert tokens[bs..][(i - 1) * bs .. i * bs] == tokens[i * bs .. (i + 1) * bs];
    }
  }

  /** Two token lists agree on their first m blocks exactly when they agree on
      their first m * bs tokens. */
  lemma {:induction false} BlocksAgree(a: seq<Token>, b: seq<Token>, bs: nat, m: nat)
    requires bs >= 1
    requires m <= |Blocks(a, bs)| && m <= |Blocks(b, bs)|
    ensures m * bs <= |a| && m * bs <= |b|
    ensures Blocks(a, bs)[..m] == Blocks(b, bs)[..m] <==> a[..m * bs] == b[..m * bs]
  {
    if m > 0 {
      var k := m - 1;
      BlocksAgree(a, b, bs, k);
      BlockAt(a, bs, k);
      BlockAt(b, bs, k);
      SplitLast(Blocks(a, bs), Blocks(b, bs), k, m);
      SplitRange(a, b, k * bs, m * bs);
    }
  }

  lemma SplitLast(a: Path, b: Path, k: nat, m: nat)
    requires m == k + 1 && m <= |a| && m <= |b|
    ensures a[..m] == b[..m] <==> a[..k] == b[..k] && a[k] == b[k]
  {
    assert a[..m] == a[..k] + [a[k]] && b[..m] == b[..k] + [b[k]];
  }

  lemma SplitRange(a: seq<Token>, b: seq<Token>, x: nat, y: nat)
    requires x <= y <= |a| && y <= |b|
    ensures a[..y] == b[..y] <==> a[..x] == b[..x] && a[x..y] == b[x..y]
  {
    assert a[..y] == a[..x] + a[x..y] && b[..y] == b[..x] + b[x..y];
  }

  // ---------------------------------------------------------------- claims

  /** The sequences claiming prefix p, oldest first. */
  function Owners(claims: seq<Claim>, p: Path): (owners: seq<int>)
  {
    if claims == [] then []
    else
      var last := claims[|claims| - 1];
      Owners(claims[..|claims| - 1], p) + if p <= last.blocks then [last.owner] else []
  }

  /** Drop every claim of one sequence. */
  function Evict(claims: seq<Claim>, id: int): (rest: seq<Claim>)
  {
    if claims == [] then []
    else
      var last := claims[|claims| - 1];
      Evict(claims[..|claims| - 1], id) + if last.owner == id then [] else [last]
  }

  /** Publish a claim; the newest claim of a sequence supersedes its older one.
      Fewer than one whole block leaves everything, an older claim included, as it was. */
  function Insert(claims: seq<Claim>, id: int, blocks: Path): (result: seq<Claim>)
  {
    if blocks == [] then claims else Evict(claims, id) + [Claim(id, blocks)]
  }

  ghost predicate DistinctOwners(claims: seq<Claim>)
  {
    forall i, j :: 0 <= i < j < |claims| ==> claims[i].owner != claims[j].owner
  }

  function Max(a: nat, b: nat): nat { if a < b then b else a }

  /** Length of the longest common prefix of two block lists. */
  function Common(a: Path, b: Path): (n: nat)
    ensures n <= |a| && n <= |b| && a[..n] == b[..n]
    ensures n < |a| && n < |b| ==> a[n] != b[n]
  {
    if a == [] || b == [] || a[0] != b[0] then 0
    else
      var n := 1 + Common(a[1..], b[1..]);
      assert a[..n] == [a[0]] + a[1..][..n - 1] && b[..n] == [b[0]] + b[1..][..n - 1];
      n
  }

  /** How many leading blocks of `path` some claim shares. */
  function MatchLen(claims: seq<Claim>, path: Path): (n: nat)
    ensures n <= |path|
  {
    if claims == [] then 0
    else Max(MatchLen(claims[..|claims| - 1], path), Common(claims[|claims| - 1].blocks, path))
  }

  /** The most recent claimant of the longest claimed prefix. */
  function Donor(claims: seq<Claim>, path: Path): (donor: int)
  {
    var n := MatchLen(claims, path);
    var owners := Owners(claims, path[..n]);
    if n == 0 || owners == [] then NO_SEQ else owners[|owners| - 1]
  }

  function Match(claims: seq<Claim>, tokens: seq<Token>, bs: nat): (hit: PrefixMatch)
    requires bs >= 1
  {
    var path := Blocks(tokens, bs);
    PrefixMatch(MatchLen(claims, path) * bs, Donor(claims, path))
  }

  /** `Match`, clamped so that at least one token is left to prefill. */
  function MatchForReuse(claims: seq<Claim>, tokens: seq<Token>, bs: nat): (hit: PrefixMatch)
    requires bs >= 1
  {
    var usable := ((|tokens| - 1) / bs) * bs;
    var full := Match(claims, tokens, bs);
    if usable <= 0 then PrefixMatch(0, NO_SEQ)
    else if full.nTokens <= usable then full
    else PrefixMatch(usable, full.seqId)
  }

  // ---------------------------------------------------------------- lemmas

  lemma PrefixIffCommon(a: Path, b: Path, k: nat)
    requires k <= |b|
    ensures b[..k] <= a <==> k <= Common(a, b)
  {
    var n := Common(a, b);
    if k <= n {
      assert b[..k] == b[..n][..k] == a[..n][..k] == a[..k];
    } else {
      assert n < |a| ==> b[..k][n] == b[n];
    }
  }

  /** The matched length is the longest: a non-empty prefix of the query is claimed
      exactly when it is no longer than the match. */
  lemma {:induction false} MatchIsLongest(claims: seq<Claim>, path: Path, k: nat)
    requires 1 <= k <= |path|
    ensures Owners(claims, path[..k]) != [] <==> k <= MatchLen(claims, path)
  {
    if claims != [] {
      MatchIsLongest(claims[..|claims| - 1], path, k);
      PrefixIffCommon(claims[|claims| - 1].blocks, path, k);
    }
  }

  /** A non-empty match always names a donor, the last claimant in publishing order. */
  lemma {:induction false} DonorIsNewestClaimant(claims: seq<Claim>, path: Path) returns (i: nat)
    requires MatchLen(claims, path) > 0
    ensures i < |claims| && claims[i].owner == Donor(claims, path)
    ensures path[..MatchLen(claims, path)] <= claims[i].blocks
    ensures forall j :: i < j < |claims| ==> !(path[..MatchLen(claims, path)] <= claims[j].blocks)
  {
    var n := MatchLen(claims, path);
    MatchIsLongest(claims, path, n);
    i := NewestOwner(claims, path[..n]);
  }

  lemma {:induction false} NewestOwner(claims: seq<Claim>, p: Path) returns (i: nat)
    requires Owners(claims, p) != []
    ensures i < |claims| && p <= claims[i].blocks
    ensures claims[i].owner == Owners(claims, p)[|Owners(claims, p)| - 1]
    ensures forall j :: i < j < |claims| ==> !(p <= claims[j].blocks)
  {
    i := |claims| - 1;
    if !(p <= claims[i].blocks) {
      i := NewestOwner(claims[..|claims| - 1], p);
    }
  }

  ghost predicate IsClaimant(c: Claim, p: Path, id: int)
  {
    c.owner == id && p <= c.blocks
  }

  ghost predicate HasClaimed(claims: seq<Claim>, p: Path, id: int)
  {
    exists i :: 0 <= i < |claims| && IsClaimant(claims[i], p, id)
  }

  lemma OneMoreClaim(claims: seq<Claim>, p: Path, id: int)
    requires claims != []
    ensures HasClaimed(claims, p, id) <==>
              HasClaimed(claims[..|claims| - 1], p, id) || IsClaimant(claims[|claims| - 1], p, id)
  {
    var n := |claims| - 1;
    var init := claims[..n];
    if HasClaimed(init, p, id) {
      var i :| 0 <= i < n && IsClaimant(init[i], p, id);
      assert IsClaimant(claims[i], p, id);
    }
    if HasClaimed(claims, p, id) {
      var i :| 0 <= i < |claims| && IsClaimant(claims[i], p, id);
      assert i < n ==> IsClaimant(init[i], p, id);
    }
  }

  /** Owners are claimants and claimants are owners. */
  lemma {:induction false} OwnersMembers(claims: seq<Claim>, p: Path, id: int)
    ensures id in Owners(claims, p) <==> HasClaimed(claims, p, id)
  {
    if claims != [] {
      OwnersMembers(claims[..|claims| - 1], p, id);
      OneMoreClaim(claims, p, id);
    }
  }

  /** Claiming a prefix claims every shorter one: ownership is closed under "parent of". */
  lemma {:induction false} OwnersClosed(claims: seq<Claim>, p: Path, q: Path, id: int)
    requires p <= q && id in Owners(claims, q)
    ensures id in Owners(claims, p)
  {
    OwnersMembers(claims, q, id);
    OwnersMembers(claims, p, id);
  }

  lemma PathsClosed(claims: seq<Claim>, p: Path, q: Path)
    requires p <= q && Owners(claims, q) != []
    ensures Owners(claims, p) != []
  {
    OwnersClosed(claims, p, q, Owners(claims, q)[0]);
  }

  function Without(s: seq<int>, x: int): (r: seq<int>)
  {
    if s == [] then []
    else Without(s[..|s| - 1], x) + if s[|s| - 1] == x then [] else [s[|s| - 1]]
  }

  /** Eviction leaves every other sequence's ownership, and its order, untouched. */
  lemma {:induction false} EvictOwners(claims: seq<Claim>, id: int, p: Path)
    ensures Owners(Evict(claims, id), p) == Without(Owners(claims, p), id)
  {
    if claims != [] {
      var n := |claims| - 1;
      var rest, last := claims[..n], claims[n];
      EvictOwners(rest, id, p);
      var tail := if last.owner == id then [] else [last];
      if tail == [] {
        assert Evict(claims, id) == Evict(rest, id);
      } else {
        assert (Evict(rest, id) + [last])[..|Evict(rest, id)|] == Evict(rest, id);
      }
      if p <= last.blocks {
        assert (Owners(rest, p) + [last.owner])[..|Owners(rest, p)|] == Owners(rest, p);
      } else {
        assert Owners(claims, p) == Owners(rest, p);
      }
    }
  }

  lemma {:induction false} WithoutAbsent(s: seq<int>, x: int)
    requires x !in s
    ensures Without(s, x) == s
  {
    if s != [] {
      WithoutAbsent(s[..|s| - 1], x);
      assert s == s[..|s| - 1] + [s[|s| - 1]];
    }
  }

  /** Remove the first occurrence: list.remove and vector::erase at std::find. */
  function RemoveFirst(s: seq<int>, x: int): (r: seq<int>)
  {
    if s == [] then [] else if s[0] == x then s[1..] else [s[0]] + RemoveFirst(s[1..], x)
  }

  lemma {:induction false} RemoveFirstSnoc(s: seq<int>, x: int, y: int)
    ensures RemoveFirst(s + [y], x) == if x in s then RemoveFirst(s, x) + [y] else if x == y then s else s + [y]
  {
    if s != [] {
      RemoveFirstSnoc(s[1..], x, y);
      assert (s + [y])[1..] == s[1..] + [y];
      assert s == [s[0]] + s[1..];
    }
  }

  ghost predicate NoDup(s: seq<int>)
  {
    forall i, j :: 0 <= i < j < |s| ==> s[i] != s[j]
  }

  lemma {:induction false} RemoveFirstIsWithout(s: seq<int>, x: int)
    requires NoDup(s)
    ensures RemoveFirst(s, x) == Without(s, x)
  {
    if s != [] {
      var init, y := s[..|s| - 1], s[|s| - 1];
      assert s == init + [y];
      RemoveFirstSnoc(init, x, y);
      RemoveFirstIsWithout(init, x);
      if x !in init { WithoutAbsent(init, x); }
    }
  }

  lemma {:induction false} OwnersNoDup(claims: seq<Claim>, p: Path)
    requires DistinctOwners(claims)
    ensures NoDup(Owners(claims, p))
  {
    if claims != [] {
      var n := |claims| - 1;
      OwnersNoDup(claims[..n], p);
      OwnersMembers(claims[..n], p, claims[n].owner);
    }
  }

  /** What evicting the claim at index i does to one prefix: nothing unless the claim
      covers it, and then exactly its own entry goes. */
  lemma EvictEffect(claims: seq<Claim>, i: nat, p: Path)
    requires DistinctOwners(claims) && i < |claims|
    ensures var id, rest := claims[i].owner, Evict(claims, claims[i].owner);
            if p <= claims[i].blocks
            then id in Owners(claims, p) && Owners(rest, p) == RemoveFirst(Owners(claims, p), id)
            else Owners(rest, p) == Owners(claims, p)
  {
    var id := claims[i].owner;
    EvictOwners(claims, id, p);
    OwnersMembers(claims, p, id);
    if p <= claims[i].blocks {
      OwnersNoDup(claims, p);
      RemoveFirstIsWithout(Owners(claims, p), id);
    } else {
      WithoutAbsent(Owners(claims, p), id);
    }
  }

  lemma {:induction false} EvictMembers(claims: seq<Claim>, id: int, c: Claim)
    ensures c in Evict(claims, id) <==> c in claims && c.owner != id
  {
    if claims != [] {
      var n := |claims| - 1;
      EvictMembers(claims[..n], id, c);
      assert claims == claims[..n] + [claims[n]];
    }
  }

  lemma {:induction false} EvictDistinct(claims: seq<Claim>, id: int)
    requires DistinctOwners(claims)
    ensures DistinctOwners(Evict(claims, id))
    ensures |Evict(claims, id)| <= |claims|
  {
    if claims != [] {
      var n := |claims| - 1;
      var rest, last := claims[..n], claims[n];
      EvictDistinct(rest, id);
      var left := Evict(rest, id);
      forall i | 0 <= i < |left|
        ensures left[i].owner != last.owner
      {
        EvictMembers(rest, id, left[i]);
        var j :| 0 <= j < n && rest[j] == left[i];
        assert claims[j] == rest[j];
      }
    }
  }

  lemma {:induction false} EvictAbsent(claims: seq<Claim>, id: int)
    requires forall i :: 0 <= i < |claims| ==> claims[i].owner != id
    ensures Evict(claims, id) == claims
  {
    if claims != [] {
      EvictAbsent(claims[..|claims| - 1], id);
      assert claims == claims[..|claims| - 1] + [claims[|claims| - 1]];
    }
  }

  lemma EvictedIsAbsent(claims: seq<Claim>, id: int)
    ensures forall i :: 0 <= i < |Evict(claims, id)| ==> Evict(claims, id)[i].owner != id
  {
    var left := Evict(claims, id);
    forall i | 0 <= i < |left| ensures left[i].owner != id {
      EvictMembers(claims, id, left[i]);
    }
  }

  lemma InsertDistinct(claims: seq<Claim>, id: int, blocks: Path)
    requires DistinctOwners(claims)
    ensures DistinctOwners(Insert(claims, id, blocks))
  {
    if blocks != [] {
      EvictDistinct(claims, id);
      EvictedIsAbsent(claims, id);
    }
  }

  lemma NothingClaimed(tokens: seq<Token>, bs: nat)
    requires bs >= 1
    ensures MatchForReuse([], tokens, bs).nTokens == 0
  {
    assert MatchLen([], Blocks(tokens, bs)) == 0;
  }

  /** Round trip: publishing for a sequence that held no claim and evicting it again
      gives back exactly the claims there were. */
  lemma InsertThenEvict(claims: seq<Claim>, id: int, blocks: Path)
    requires forall i :: 0 <= i < |claims| ==> claims[i].owner != id
    ensures Evict(Insert(claims, id, blocks), id) == claims
  {
    EvictAbsent(claims, id);
    if blocks != [] {
      var c := claims + [Claim(id, blocks)];
      assert c[..|c| - 1] == claims;
    }
  }

  /** Some sequence other than id claims this prefix. */
  ghost predicate ClaimedByOther(claims: seq<Claim>, p: Path, id: int)
  {
    exists i :: 0 <= i < |claims| && claims[i].owner != id && p <= claims[i].blocks
  }

  /** After an eviction a prefix is matched exactly if somebody else claims it. */
  lemma {:induction false} EvictedMatch(claims: seq<Claim>, id: int, path: Path, k: nat)
    requires 1 <= k <= |path|
    ensures k <= MatchLen(Evict(claims, id), path) <==> ClaimedByOther(claims, path[..k], id)
  {
    if claims != [] {
      var n := |claims| - 1;
      var init, last := claims[..n], claims[n];
      EvictedMatch(init, id, path, k);
      PrefixIffCommon(last.blocks, path, k);
      OtherClaim(claims, path[..k], id);
      if last.owner != id {
        assert Evict(claims, id)[..|Evict(init, id)|] == Evict(init, id);
      } else {
        assert Evict(claims, id) == Evict(init, id);
      }
    }
  }

  lemma OtherClaim(claims: seq<Claim>, p: Path, id: int)
    requires claims != []
    ensures var n := |claims| - 1;
            ClaimedByOther(claims, p, id) <==>
              ClaimedByOther(claims[..n], p, id) || (claims[n].owner != id && p <= claims[n].blocks)
  {
    var n := |claims| - 1;
    var init := claims[..n];
    if ClaimedByOther(init, p, id) {
      var i :| 0 <= i < n && init[i].owner != id && p <= init[i].blocks;
      assert claims[i] == init[i];
    }
    if ClaimedByOther(claims, p, id) {
      var i :| 0 <= i < |claims| && claims[i].owner != id && p <= claims[i].blocks;
      assert i < n ==> init[i] == claims[i];
    }
  }

  /** Evicting one sequence changes a lookup only by the blocks nobody else claims, and
      changes the donor only when the donor is the evicted sequence. */
  lemma {:induction false} EvictKeepsOtherAnswers(claims: seq<Claim>, id: int, path: Path)
    ensures MatchLen(Evict(claims, id), path) <= MatchLen(claims, path)
    ensures forall k {:trigger path[..k]} :: 1 <= k <= |path| ==>
              (k <= MatchLen(Evict(claims, id), path) <==> ClaimedByOther(claims, path[..k], id))
    ensures var n := MatchLen(claims, path);
            n > 0 && Donor(claims, path) != id ==>
              MatchLen(Evict(claims, id), path) == n && Donor(Evict(claims, id), path) == Donor(claims, path)
  {
    var n, n' := MatchLen(claims, path), MatchLen(Evict(claims, id), path);
    forall k {:trigger path[..k]} | 1 <= k <= |path|
      ensures k <= MatchLen(Evict(claims, id), path) <==> ClaimedByOther(claims, path[..k], id)
    {
      EvictedMatch(claims, id, path, k);
    }
    if n' > 0 {
      MatchIsLongest(Evict(claims, id), path, n');
      EvictOwners(claims, id, path[..n']);
      MatchIsLongest(claims, path, n');
    }
    if n > 0 && Donor(claims, path) != id {
      MatchIsLongest(claims, path, n);
      EvictOwners(claims, id, path[..n]);
      MatchIsLongest(Evict(claims, id), path, n);
    }
  }

  /** The clamped length in blocks: the match, cut at the last block that still leaves
      a token to prefill. */
  function ReuseLen(claims: seq<Claim>, tokens: seq<Token>, bs: nat): (k: nat)
    requires bs >= 1 && tokens != []
  {
    var n, u := MatchLen(claims, Blocks(tokens, bs)), (|tokens| - 1) / bs;
    if n <= u then n else u
  }

  lemma ReuseShape(claims: seq<Claim>, tokens: seq<Token>, bs: nat)
    requires bs >= 1 && tokens != []
    ensures var k := ReuseLen(claims, tokens, bs);
            && k * bs < |tokens|
            && MatchForReuse(claims, tokens, bs) ==
               PrefixMatch(k * bs, if k == 0 then NO_SEQ else Donor(claims, Blocks(tokens, bs)))
  {
    var n, u := MatchLen(claims, Blocks(tokens, bs)), (|tokens| - 1) / bs;
    DivBounds(|tokens| - 1, bs);
    ClampCases(n, u, bs);
  }

  lemma ClampCases(n: nat, u: nat, bs: nat)
    requires bs >= 1
    ensures u * bs <= 0 <==> u == 0
    ensures n * bs <= u * bs <==> n <= u
  {
    assert (u + 1) * bs == u * bs + bs;
    if n <= u { MulMono(n, u, bs); } else { MulMono(u + 1, n, bs); }
    if u >= 1 { MulMono(1, u, bs); }
  }

  /** The clamp: a whole number of blocks, strictly below the prompt length, and the
      named donor claims the shortened prefix too. */
  lemma ReuseIsClamped(claims: seq<Claim>, tokens: seq<Token>, bs: nat)
    requires bs >= 1 && tokens != []
    ensures var hit, k := MatchForReuse(claims, tokens, bs), ReuseLen(claims, tokens, bs);
            && hit.nTokens == k * bs < |tokens|
            && k <= |Blocks(tokens, bs)|
            && (hit.nTokens == 0 <==> k == 0)
            && (k == 0 ==> hit.seqId == NO_SEQ)
            && (k > 0 ==> hit.seqId in Owners(claims, Blocks(tokens, bs)[..k]))
  {
    var path := Blocks(tokens, bs);
    var n, k := MatchLen(claims, path), ReuseLen(claims, tokens, bs);
    ReuseShape(claims, tokens, bs);
    if k > 0 {
      MulMono(1, k, bs);
      MatchIsLongest(claims, path, n);
      OwnersClosed(claims, path[..k], path[..n], Donor(claims, path));
    }
  }

  // ---------------------------------------------------------------- the nodes of the tree

  /** The distinct non-empty block prefixes of the live claims. */
  function Prefixes(claims: seq<Claim>): (paths: set<Path>)
  {
    if claims == [] then {}
    else
      var b := claims[|claims| - 1].blocks;
      Prefixes(claims[..|claims| - 1]) + set j | 1 <= j <= |b| :: b[..j]
  }

  lemma {:induction false} PrefixesAreOwned(claims: seq<Claim>, p: Path)
    ensures p in Prefixes(claims) <==> p != [] && Owners(claims, p) != []
  {
    if claims != [] {
      PrefixesAreOwned(claims[..|claims| - 1], p);
      var b := claims[|claims| - 1].blocks;
      if p <= b {
        assert p == b[..|p|];
      }
    }
  }

  /** Less than a block is no block. */
  lemma WholeBlocks(tokens: seq<Token>, bs: nat)
    requires bs >= 1 && |tokens| < bs
    ensures |tokens| / bs == 0 && Blocks(tokens, bs) == []
  {
    DivUnique(|tokens|, bs, 0);
  }

  /** What publishing leaves: the new claim, last, and the claims of the other sequences. */
  lemma InsertMembers(claims: seq<Claim>, id: int, blocks: Path, c: Claim)
    requires blocks != []
    ensures c in Insert(claims, id, blocks) <==> c == Claim(id, blocks) || (c in claims && c.owner != id)
    ensures var all := Insert(claims, id, blocks); all[|all| - 1] == Claim(id, blocks)
  {
    EvictMembers(claims, id, c);
    var rest := Evict(claims, id);
    assert c in rest + [Claim(id, blocks)] <==> c in rest || c == Claim(id, blocks);
  }

  /** The clamp cuts no more than it must: of the whole blocks that leave a token to prefill, exactly
      those are reused whose prefix somebody claims. */
  lemma ReuseIsLongest(claims: seq<Claim>, tokens: seq<Token>, bs: nat, m: nat)
    requires bs >= 1 && tokens != [] && 1 <= m <= |Blocks(tokens, bs)| && m * bs < |tokens|
    ensures m * bs <= MatchForReuse(claims, tokens, bs).nTokens <==> Owners(claims, Blocks(tokens, bs)[..m]) != []
  {
    var path := Blocks(tokens, bs);
    ReuseShape(claims, tokens, bs);
    MatchIsLongest(claims, path, m);
    UnderClamp(m, bs, |tokens|);
    TimesOrder(m, ReuseLen(claims, tokens, bs), bs);
  }

  lemma UnderClamp(m: nat, bs: nat, n: nat)
    requires bs >= 1 && m * bs < n
    ensures m <= (n - 1) / bs
  {
    var u := (n - 1) / bs;
    DivBounds(n - 1, bs);
    if u + 1 <= m { MulMono(u + 1, m, bs); }
  }

  lemma TimesOrder(a: nat, b: nat, c: nat)
    requires c >= 1
    ensures a * c <= b * c <==> a <= b
  {
    if a <= b {
      MulMono(a, b, c);
    } else {
      MulMono(b + 1, a, c);
      assert (b + 1) * c == b * c + c;
    }
  }
}
