/** tinyserve/runtime/llama_runtime.py over an abstract llama.cpp: per sequence slot the
    cache holds tokens by position, a decode call writes its rows, and the model is a
    function from the cells a row can see to the next token. */
module Runtime {
  import opened Requests
  import opened Batch

  /** Cells of one sequence, by position. */
  type Context = map<nat, Token>
  type Model = Context -> Token

  /** Cells of every slot. */
  type Store = map<nat, Context>

  function ContextOf(tokens: seq<Token>): (ctx: Context)
  {
    map i: nat | i < |tokens| :: tokens[i]
  }

  function EmptyStore(n: nat): (store: Store)
    ensures forall slot: nat :: slot in store <==> slot < n
    ensures forall slot :: slot in store ==> store[slot] == map[]
  {
    if n == 0 then map[] else EmptyStore(n - 1)[n - 1 := map[]]
  }

  function CellsOf(store: Store, slot: int): (ctx: Context)
  {
    if slot >= 0 && slot in store then store[slot] else map[]
  }

  /** llama_memory_seq_pos_max(slot) >= n - 1. */
  predicate Reaches(ctx: Context, n: int)
  {
    exists p :: p in ctx && p >= n - 1
  }

  function Below(ctx: Context, n: int): (r: Context)
  {
    map p | p in ctx && p < n :: ctx[p]
  }

  predicate CanReuse(store: Store, src: int, dst: nat, n: int)
  {
    n > 0 && src != dst && Reaches(CellsOf(store, src), n)
  }

  function AfterReuse(store: Store, src: int, dst: nat, n: int): (store': Store)
  {
    if CanReuse(store, src, dst, n) then store[dst := CellsOf(store, dst) + Below(CellsOf(store, src), n)] else store
  }

  function AfterFree(store: Store, slot: nat): (store': Store)
  {
    store[slot := map[]]
  }

  /** The cells after every row has been written at its own position. */
  function Written(store: Store, rows: seq<Row>): (store': Store)
  {
    if rows == [] then store
    else
      var before, row := Written(store, rows[..|rows| - 1]), rows[|rows| - 1];
      before[row.seqId := CellsOf(before, row.seqId)[row.pos := row.token]]
  }

  /** The greedy sample of every row that asks for logits; a row attends to its own
      sequence up to its own position. */
  function Sampled(next: Model, store: Store, rows: seq<Row>): (tokens: map<nat, Token>)
  {
    if rows == [] then map[]
    else
      var before, row := Sampled(next, store, rows[..|rows| - 1]), rows[|rows| - 1];
      if row.needsLogits then before[row.seqId := next(Below(CellsOf(store, row.seqId), row.pos + 1))] else before
  }

  /** After a failed call the slots of the batch hold anything. */
  function Scrambled(store: Store, rows: seq<Row>, garbage: Store): (store': Store)
  {
    map slot | slot in store :: if RowsOf(rows, slot) == [] then store[slot] else CellsOf(garbage, slot)
  }

  // ---------------------------------------------------------------- one slot at a time

  function WriteRows(ctx: Context, mine: seq<Row>): (ctx': Context)
  {
    if mine == [] then ctx else WriteRows(ctx, mine[..|mine| - 1])[mine[|mine| - 1].pos := mine[|mine| - 1].token]
  }

  lemma {:induction false} WrittenSlot(store: Store, rows: seq<Row>, slot: nat)
    ensures CellsOf(Written(store, rows), slot) == WriteRows(CellsOf(store, slot), RowsOf(rows, slot))
    ensures slot in store ==> slot in Written(store, rows)
    ensures RowsOf(rows, slot) == [] ==> (slot in store <==> slot in Written(store, rows))
  {
    if rows != [] {
      var n := |rows| - 1;
      WrittenSlot(store, rows[..n], slot);
      var before, mine := Written(store, rows[..n]), RowsOf(rows[..n], slot);
      if rows[n].seqId == slot {
        assert (mine + [rows[n]])[..|mine|] == mine;
      } else {
        assert RowsOf(rows, slot) == mine;
      }
    }
  }

  /** Writing a slice extends the context by exactly those tokens: no gap, no overwrite. */
  lemma {:induction false} WriteSlice(h: seq<Token>, a: ActiveSeq, take: nat, k: nat)
    requires a.nPast <= |h| && a.pending == h[a.nPast..] && k <= take <= |a.pending|
    ensures WriteRows(ContextOf(h[..a.nPast]), Slice(a, take)[..k]) == ContextOf(h[..a.nPast + k])
  {
    if k > 0 {
      WriteSlice(h, a, take, k - 1);
      var mine := Slice(a, take)[..k];
      assert mine[..k - 1] == Slice(a, take)[..k - 1];
      ExtendContext(h, a.nPast + k - 1);
    }
  }

  lemma ExtendContext(h: seq<Token>, n: nat)
    requires n < |h|
    ensures n !in ContextOf(h[..n])
    ensures ContextOf(h[..n])[n := h[n]] == ContextOf(h[..n + 1])
  {
  }

  /** What a slot samples depends on its own rows only. */
  lemma {:induction false} SampledSlot(next: Model, store: Store, rows: seq<Row>, slot: nat)
    ensures slot in Sampled(next, store, rows) <==> slot in Sampled(next, store, RowsOf(rows, slot))
    ensures slot in Sampled(next, store, rows) ==>
            Sampled(next, store, rows)[slot] == Sampled(next, store, RowsOf(rows, slot))[slot]
  {
    if rows != [] {
      var n := |rows| - 1;
      SampledSlot(next, store, rows[..n], slot);
      var mine := RowsOf(rows[..n], slot);
      if rows[n].seqId == slot {
        assert (mine + [rows[n]])[..|mine|] == mine;
      } else {
        assert RowsOf(rows, slot) == mine;
      }
    }
  }

  lemma {:induction false} NoSample(next: Model, store: Store, mine: seq<Row>)
    requires forall i :: 0 <= i < |mine| ==> !mine[i].needsLogits
    ensures Sampled(next, store, mine) == map[]
  {
    if mine != [] { NoSample(next, store, mine[..|mine| - 1]); }
  }

  /** A slice samples exactly when it takes everything pending, and then it samples after
      its last token. */
  lemma SampledSlice(next: Model, store: Store, a: ActiveSeq, take: nat)
    requires take <= |a.pending| && a.pending != []
    ensures a.seqId in Sampled(next, store, Slice(a, take)) <==> take == |a.pending|
    ensures take == |a.pending| ==>
              Sampled(next, store, Slice(a, take))[a.seqId] == next(Below(CellsOf(store, a.seqId), a.nPast + take))
  {
    var mine := Slice(a, take);
    if take < |a.pending| {
      NoSample(next, store, mine);
    } else {
      NoSample(next, store, mine[..take - 1]);
    }
  }

  lemma BelowAll(h: seq<Token>)
    ensures Below(ContextOf(h), |h|) == ContextOf(h)
  {
  }

  /** With gapless cells, the position check of a reuse counts tokens, and what is copied is
      the prefix. */
  lemma ReuseOfContext(h: seq<Token>, n: int)
    requires n > 0
    ensures Reaches(ContextOf(h), n) <==> n <= |h|
    ensures n <= |h| ==> Below(ContextOf(h), n) == ContextOf(h[..n])
  {
    if n <= |h| {
      assert n - 1 in ContextOf(h);
    }
  }

  // ---------------------------------------------------------------- the runtime

  class LlamaRuntime {
    const capacity: nat
    const next: Model
    var store: Store
    var nTokens: nat
    const tokenBuf: array<Token>
    const posBuf: array<nat>
    const seqBuf: array<nat>
    const logitsBuf: array<bool>

    ghost predicate Valid()
    {
      && tokenBuf.Length == posBuf.Length == seqBuf.Length == logitsBuf.Length == capacity
      && posBuf != seqBuf
    }

    ghost function Repr(): set<object>
    {
      {this, tokenBuf, posBuf, seqBuf, logitsBuf}
    }

    constructor (nCtx: nat, nSeqMax: nat, next: Model)
      ensures Valid() && capacity == nCtx && this.next == next
      ensures store == EmptyStore(nSeqMax)
      ensures fresh(Repr())
    {
      capacity, this.next, nTokens := nCtx, next, 0;
      store := EmptyStore(nSeqMax);
      tokenBuf, posBuf := new Token[nCtx](_ => 0), new nat[nCtx](_ => 0);
      seqBuf, logitsBuf := new nat[nCtx](_ => 0), new bool[nCtx](_ => false);
    }

    method FreeSequence(slot: nat)
      modifies this`store
      ensures store == AfterFree(old(store), slot)
    {
      store := store[slot := map[]];
    }

    method ReusePrefix(src: int, dst: nat, n: int) returns (ok: bool)
      modifies this`store
      ensures ok == CanReuse(old(store), src, dst, n)
      ensures store == AfterReuse(old(store), src, dst, n)
    {
      if n <= 0 || src == dst {
        return false;
      }
      if !Reaches(CellsOf(store, src), n) {
        return false;
      }
      store := store[dst := CellsOf(store, dst) + Below(CellsOf(store, src), n)];
      ok := true;
    }

    ghost predicate Holds(rows: seq<Row>)
      requires Valid()
      reads this, tokenBuf, posBuf, seqBuf, logitsBuf
    {
      && nTokens == |rows| <= capacity
      && forall i :: 0 <= i < |rows| ==>
           tokenBuf[i] == rows[i].token && posBuf[i] == rows[i].pos && seqBuf[i] == rows[i].seqId
             && logitsBuf[i] == rows[i].needsLogits
    }

    /** Copy the rows into the batch buffer. More rows than the buffer holds would be written
        past its end. */
    method Fill(rows: seq<Row>)
      requires Valid() && |rows| <= capacity
      modifies this`nTokens, tokenBuf, posBuf, seqBuf, logitsBuf
      ensures Holds(rows)
    {
      nTokens := |rows|;
      for i := 0 to |rows|
        invariant nTokens == |rows|
        invariant forall j :: 0 <= j < i ==>
          tokenBuf[j] == rows[j].token && posBuf[j] == rows[j].pos && seqBuf[j] == rows[j].seqId
            && logitsBuf[j] == rows[j].needsLogits
      {
        tokenBuf[i], posBuf[i], seqBuf[i], logitsBuf[i] := rows[i].token, rows[i].pos, rows[i].seqId,
          rows[i].needsLogits;
      }
    }

    /** llama_decode: every row of the buffer is written to its cell. */
    method LlamaDecode(ghost rows: seq<Row>)
      requires Valid() && Holds(rows)
      modifies this`store
      ensures store == Written(old(store), rows)
    {
      for i := 0 to nTokens
        invariant store == Written(old(store), rows[..i])
      {
        assert rows[..i + 1][..i] == rows[..i];
        store := store[seqBuf[i] := CellsOf(store, seqBuf[i])[posBuf[i] := tokenBuf[i]]];
      }
      assert rows[..|rows|] == rows;
    }

    /** One decode call. Whether it fails, and what a failure leaves behind, is up to the
        library. */
    method Decode(rows: seq<Row>, fails: bool, garbage: Store) returns (ok: bool, sampled: map<nat, Token>)
      requires Valid() && |rows| <= capacity
      modifies this, tokenBuf, posBuf, seqBuf, logitsBuf
      ensures ok == !fails
      ensures ok ==> store == Written(old(store), rows) && sampled == Sampled(next, store, rows)
      ensures !ok ==> store == Scrambled(old(store), rows, garbage) && sampled == map[]
    {
      Fill(rows);
      if fails {
        store := Scrambled(store, rows, garbage);
        return false, map[];
      }
      LlamaDecode(rows);
      sampled := map[];
      for i := 0 to |rows|
        invariant store == Written(old(store), rows)
        invariant sampled == Sampled(next, store, rows[..i])
      {
        assert rows[..i + 1][..i] == rows[..i];
        if rows[i].needsLogits {
          sampled := sampled[rows[i].seqId := next(Below(CellsOf(store, rows[i].seqId), rows[i].pos + 1))];
        }
      }
      assert rows[..|rows|] == rows;
      ok := true;
    }
  }
}
