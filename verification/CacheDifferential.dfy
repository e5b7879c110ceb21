/** The two prefix caches answer alike: every script of operations, replayed from empty on
    the Python tree and on the C++ tree, gives the same answers. */
module CacheDifferential {
  import opened Requests
  import opened PrefixClaims
  import opened PythonCache
  import opened NativeCache

  datatype Op =
    | InsertOp(tokens: seq<Token>, seqId: int)
    | EvictOp(seqId: int)
    | MatchOp(tokens: seq<Token>)
    | ReuseOp(tokens: seq<Token>)
    | StatOp

  datatype Answer =
    | Published(n: int)
    | Evicted
    | Found(hit: PrefixMatch)
    | Stat(nodes: int, seqs: int)

  function After(claims: seq<Claim>, op: Op, bs: nat): (claims': seq<Claim>)
    requires bs >= 1
  {
    match op
    case InsertOp(tokens, id) => Insert(claims, id, Blocks(tokens, bs))
    case EvictOp(id) => Evict(claims, id)
    case _ => claims
  }

  function AnswerTo(claims: seq<Claim>, op: Op, bs: nat): (answer: Answer)
    requires bs >= 1
  {
    match op
    case InsertOp(tokens, _) => Published(|Blocks(tokens, bs)| * bs)
    case EvictOp(_) => Evicted
    case MatchOp(tokens) => Found(Match(claims, tokens, bs))
    case ReuseOp(tokens) => Found(MatchForReuse(claims, tokens, bs))
    case StatOp => Stat(|Prefixes(claims)|, |claims|)
  }

  /** The claims after a script. */
  function ClaimsAfter(ops: seq<Op>, bs: nat): (claims: seq<Claim>)
    requires bs >= 1
  {
    if ops == [] then [] else After(ClaimsAfter(ops[..|ops| - 1], bs), ops[|ops| - 1], bs)
  }

  /** The answers of the flat list of claims. */
  function Trace(ops: seq<Op>, bs: nat): (answers: seq<Answer>)
    requires bs >= 1
    ensures |answers| == |ops|
  {
    if ops == [] then []
    else
      var n := |ops| - 1;
      Trace(ops[..n], bs) + [AnswerTo(ClaimsAfter(ops[..n], bs), ops[n], bs)]
  }

  method StepPython(cache: PythonPrefixCache, op: Op) returns (answer: Answer)
    requires cache.Valid()
    modifies cache, cache.repr
    ensures cache.Valid() && cache.claims == After(old(cache.claims), op, cache.blockSize)
    ensures answer == AnswerTo(old(cache.claims), op, cache.blockSize)
    ensures (forall n :: n in cache.repr ==> n in old(cache.repr) || fresh(n))
  {
    match op {
      case InsertOp(tokens, id) =>
        var n := cache.Insert(tokens, id);
        answer := Published(n);
      case EvictOp(id) =>
        cache.Evict(id);
        answer := Evicted;
      case MatchOp(tokens) =>
        var hit := cache.Match(tokens);
        answer := Found(hit);
      case ReuseOp(tokens) =>
        var hit := cache.MatchForReuse(tokens);
        answer := Found(hit);
      case StatOp =>
        var nodes := cache.NodeCount();
        var seqs := cache.SeqCount();
        answer := Stat(nodes, seqs);
    }
  }

  /** The ctypes wrapper's lookup: short prompts never reach the library, and a donor is
      only read after a hit. */
  method NativeMatch(cache: NativePrefixCache, tokens: seq<Token>) returns (hit: PrefixMatch)
    requires cache.Valid()
    ensures hit == Match(cache.claims, tokens, cache.blockSize)
  {
    if |tokens| < cache.blockSize {
      return PrefixMatch(0, NO_SEQ);
    }
    var n, donor := cache.Match(tokens);
    hit := PrefixMatch(n, if n > 0 then donor else NO_SEQ);
    if n == 0 { NoDonorWithoutMatch(cache.claims, Blocks(tokens, cache.blockSize), cache.blockSize); }
  }

  lemma NoDonorWithoutMatch(claims: seq<Claim>, path: Path, bs: nat)
    requires bs >= 1 && MatchLen(claims, path) * bs == 0
    ensures Donor(claims, path) == NO_SEQ
  {
    ClampCases(0, MatchLen(claims, path), bs);
  }

  method NativeReuse(cache: NativePrefixCache, tokens: seq<Token>) returns (hit: PrefixMatch)
    requires cache.Valid()
    ensures hit == MatchForReuse(cache.claims, tokens, cache.blockSize)
  {
    var usable := ((|tokens| - 1) / cache.blockSize) * cache.blockSize;
    if usable <= 0 {
      return PrefixMatch(0, NO_SEQ);
    }
    hit := NativeMatch(cache, tokens);
    if hit.nTokens > usable {
      hit := PrefixMatch(usable, hit.seqId);
    }
  }

  method StepNative(cache: NativePrefixCache, op: Op) returns (answer: Answer)
    requires cache.Valid()
    modifies cache, cache.live
    ensures cache.Valid() && cache.claims == After(old(cache.claims), op, cache.blockSize)
    ensures answer == AnswerTo(old(cache.claims), op, cache.blockSize)
    ensures (forall n :: n in cache.live ==> n in old(cache.live) || fresh(n))
  {
    match op {
      case InsertOp(tokens, id) =>
        var n := cache.Insert(tokens, id);
        answer := Published(n);
      case EvictOp(id) =>
        cache.Evict(id);
        answer := Evicted;
      case MatchOp(tokens) =>
        var hit := NativeMatch(cache, tokens);
        answer := Found(hit);
      case ReuseOp(tokens) =>
        var hit := NativeReuse(cache, tokens);
        answer := Found(hit);
      case StatOp =>
        var nodes := cache.NodeCount();
        var seqs := cache.SeqCount();
        answer := Stat(nodes, seqs);
    }
  }

  method ReplayPython(ops: seq<Op>, bs: nat) returns (answers: seq<Answer>)
    requires bs >= 1
    ensures answers == Trace(ops, bs)
  {
    var cache := new PythonPrefixCache(bs);
    answers := [];
    for i := 0 to |ops|
      invariant cache.Valid() && cache.blockSize == bs && fresh(cache) && fresh(cache.repr)
      invariant cache.claims == ClaimsAfter(ops[..i], bs) && answers == Trace(ops[..i], bs)
    {
      var answer := StepPython(cache, ops[i]);
      answers := answers + [answer];
      assert ops[..i + 1][..i] == ops[..i];
    }
    assert ops[..|ops|] == ops;
  }

  method ReplayNative(ops: seq<Op>, bs: nat) returns (answers: seq<Answer>)
    requires bs >= 1
    ensures answers == Trace(ops, bs)
  {
    var cache := new NativePrefixCache(bs);
    answers := [];
    for i := 0 to |ops|
      invariant cache.Valid() && cache.blockSize == bs && fresh(cache) && fresh(cache.live)
      invariant cache.claims == ClaimsAfter(ops[..i], bs) && answers == Trace(ops[..i], bs)
    {
      var answer := StepNative(cache, ops[i]);
      answers := answers + [answer];
      assert ops[..i + 1][..i] == ops[..i];
    }
    assert ops[..|ops|] == ops;
  }

  /** The differential statement: no script tells the two apart. */
  method Differential(ops: seq<Op>, bs: nat) returns (python: seq<Answer>, native: seq<Answer>)
    requires bs >= 1
    ensures python == native && |python| == |ops|
    ensures python == Trace(ops, bs)
  {
    python := ReplayPython(ops, bs);
    native := ReplayNative(ops, bs);
  }
}
