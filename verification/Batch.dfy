/** tinyserve/batch/builder.py: one batch over every active sequence. */
module Batch {
  import opened Requests

  datatype ActiveSeq = ActiveSeq(seqId: nat, pending: seq<Token>, nPast: nat)
  datatype Row = Row(seqId: nat, token: Token, pos: nat, needsLogits: bool)

  function Min(a: int, b: int): int { if a < b then a else b }

  /** The first `take` pending tokens at the next positions; logits on the very last one. */
  function Slice(a: ActiveSeq, take: nat): (rows: seq<Row>)
    requires take <= |a.pending|
    ensures |rows| == take
  {
    seq(take, i requires 0 <= i < take =>
      Row(a.seqId, a.pending[i], a.nPast + i, take == |a.pending| && i == take - 1))
  }

  /** What a sequence may have at most this tick. */
  function Share(a: ActiveSeq, chunk: nat): (n: nat) { Min(chunk, |a.pending|) }

  /** What it gets when `remaining` rows are left. */
  function Take(a: ActiveSeq, remaining: int, chunk: nat): (n: nat)
  {
    if remaining <= 0 then 0 else Min(Share(a, chunk), remaining)
  }

  /** The rows for sequences in the given order. */
  function Rows(ordered: seq<ActiveSeq>, remaining: int, chunk: nat): (rows: seq<Row>)
  {
    if ordered == [] then []
    else
      var take := Take(ordered[0], remaining, chunk);
      Slice(ordered[0], take) + Rows(ordered[1..], remaining - take, chunk)
  }

  /** Shortest pending list first, stable. */
  function Sorted(active: seq<ActiveSeq>): (sorted: seq<ActiveSeq>)
  {
    if active == [] then [] else Insert(Sorted(active[..|active| - 1]), active[|active| - 1])
  }

  function Insert(sorted: seq<ActiveSeq>, a: ActiveSeq): (r: seq<ActiveSeq>)
  {
    if sorted == [] || |sorted[|sorted| - 1].pending| <= |a.pending| then sorted + [a]
    else Insert(sorted[..|sorted| - 1], a) + [sorted[|sorted| - 1]]
  }

  function Build(active: seq<ActiveSeq>, capacity: nat, chunk: nat): (rows: seq<Row>)
  {
    Rows(Sorted(active), capacity, chunk)
  }

  function RowsOf(rows: seq<Row>, slot: nat): (mine: seq<Row>)
  {
    if rows == [] then []
    else RowsOf(rows[..|rows| - 1], slot) + if rows[|rows| - 1].seqId == slot then [rows[|rows| - 1]] else []
  }

  /** PreparedBatch.row_count. */
  function RowCount(rows: seq<Row>, slot: nat): (n: nat) { |RowsOf(rows, slot)| }

  method BuildBatch(active: seq<ActiveSeq>, capacity: nat, chunk: nat) returns (rows: seq<Row>)
    ensures rows == Build(active, capacity, chunk)
  {
    var ordered := Sorted(active);
    rows := [];
    var remaining: int := capacity;
    for i := 0 to |ordered|
      invariant rows + Rows(ordered[i..], remaining, chunk) == Build(active, capacity, chunk)
    {
      var a := ordered[i];
      RowsUnfold(ordered, i, remaining, chunk, rows);
      if a.pending != [] && remaining > 0 {
        var take := Min(Min(chunk, |a.pending|), remaining);
        rows := rows + Slice(a, take);
        remaining := remaining - take;
      } else {
        assert rows + Slice(a, 0) == rows;
      }
    }
    assert ordered[|ordered|..] == [];
  }

  lemma RowsUnfold(ordered: seq<ActiveSeq>, i: nat, remaining: int, chunk: nat, rows: seq<Row>)
    requires i < |ordered|
    ensures var take := Take(ordered[i], remaining, chunk);
            rows + Rows(ordered[i..], remaining, chunk) == (rows + Slice(ordered[i], take))
              + Rows(ordered[i + 1..], remaining - take, chunk)
  {
    assert ordered[i..][1..] == ordered[i + 1..];
  }

  // ---------------------------------------------------------------- sorting

  lemma {:induction false} InsertMembers(sorted: seq<ActiveSeq>, a: ActiveSeq, x: ActiveSeq)
    ensures x in Insert(sorted, a) <==> x == a || x in sorted
    ensures |Insert(sorted, a)| == |sorted| + 1
  {
    if !(sorted == [] || |sorted[|sorted| - 1].pending| <= |a.pending|) {
      InsertMembers(sorted[..|sorted| - 1], a, x);
      assert sorted == sorted[..|sorted| - 1] + [sorted[|sorted| - 1]];
    }
  }

  lemma {:induction false} SortedMembers(active: seq<ActiveSeq>, x: ActiveSeq)
    ensures x in Sorted(active) <==> x in active
    ensures |Sorted(active)| == |active|
  {
    if active != [] {
      var n := |active| - 1;
      SortedMembers(active[..n], x);
      InsertMembers(Sorted(active[..n]), active[n], x);
      assert active == active[..n] + [active[n]];
    }
  }

  ghost predicate DistinctSlots(s: seq<ActiveSeq>)
  {
    forall i, j :: 0 <= i < j < |s| ==> s[i].seqId != s[j].seqId
  }

  lemma {:induction false} InsertDistinct(sorted: seq<ActiveSeq>, a: ActiveSeq)
    requires DistinctSlots(sorted) && forall i :: 0 <= i < |sorted| ==> sorted[i].seqId != a.seqId
    ensures DistinctSlots(Insert(sorted, a))
  {
    if !(sorted == [] || |sorted[|sorted| - 1].pending| <= |a.pending|) {
      var n := |sorted| - 1;
      InsertDistinct(sorted[..n], a);
      var r := Insert(sorted[..n], a);
      forall i | 0 <= i < |r| ensures r[i].seqId != sorted[n].seqId {
        InsertMembers(sorted[..n], a, r[i]);
      }
    }
  }

  lemma {:induction false} SortedDistinct(active: seq<ActiveSeq>)
    requires DistinctSlots(active)
    ensures DistinctSlots(Sorted(active))
  {
    if active != [] {
      var n := |active| - 1;
      SortedDistinct(active[..n]);
      var s := Sorted(active[..n]);
      forall i | 0 <= i < |s| ensures s[i].seqId != active[n].seqId {
        SortedMembers(active[..n], s[i]);
      }
      InsertDistinct(s, active[n]);
    }
  }

  /** Decode steps come before long prefills. */
  ghost predicate Ascending(s: seq<ActiveSeq>)
  {
    forall i, j :: 0 <= i < j < |s| ==> |s[i].pending| <= |s[j].pending|
  }

  lemma {:induction false} InsertAscending(sorted: seq<ActiveSeq>, a: ActiveSeq)
    requires Ascending(sorted)
    ensures Ascending(Insert(sorted, a))
  {
    if !(sorted == [] || |sorted[|sorted| - 1].pending| <= |a.pending|) {
      var n := |sorted| - 1;
      InsertAscending(sorted[..n], a);
      var r := Insert(sorted[..n], a);
      forall i | 0 <= i < |r| ensures |r[i].pending| <= |sorted[n].pending| {
        InsertMembers(sorted[..n], a, r[i]);
      }
    }
  }

  lemma {:induction false} SortedAscending(active: seq<ActiveSeq>)
    ensures Ascending(Sorted(active))
  {
    if active != [] {
      SortedAscending(active[..|active| - 1]);
      InsertAscending(Sorted(active[..|active| - 1]), active[|active| - 1]);
    }
  }

  // ---------------------------------------------------------------- packing

  /** The demand of a list: the sum of the shares. */
  function Demand(s: seq<ActiveSeq>, chunk: nat): (n: nat)
  {
    if s == [] then 0 else Demand(s[..|s| - 1], chunk) + Share(s[|s| - 1], chunk)
  }

  lemma {:induction false} DemandHead(s: seq<ActiveSeq>, chunk: nat)
    requires s != []
    ensures Demand(s, chunk) == Share(s[0], chunk) + Demand(s[1..], chunk)
  {
    var n := |s| - 1;
    if n > 0 {
      DemandHead(s[..n], chunk);
      assert s[..n][1..] == s[1..][..n - 1];
    }
  }

  lemma {:induction false} DemandInsert(s: seq<ActiveSeq>, a: ActiveSeq, chunk: nat)
    ensures Demand(Insert(s, a), chunk) == Demand(s, chunk) + Share(a, chunk)
  {
    if s == [] || |s[|s| - 1].pending| <= |a.pending| {
      assert (s + [a])[..|s|] == s;
    } else {
      var n := |s| - 1;
      DemandInsert(s[..n], a, chunk);
      var r := Insert(s[..n], a);
      assert (r + [s[n]])[..|r|] == r;
    }
  }

  lemma {:induction false} DemandSorted(s: seq<ActiveSeq>, chunk: nat)
    ensures Demand(Sorted(s), chunk) == Demand(s, chunk)
  {
    if s != [] {
      DemandSorted(s[..|s| - 1], chunk);
      DemandInsert(Sorted(s[..|s| - 1]), s[|s| - 1], chunk);
    }
  }

  lemma {:induction false} RowTotal(ordered: seq<ActiveSeq>, remaining: int, chunk: nat)
    ensures |Rows(ordered, remaining, chunk)| == if remaining <= 0 then 0 else Min(remaining, Demand(ordered, chunk))
    decreases |ordered|
  {
    if ordered != [] {
      var take := Take(ordered[0], remaining, chunk);
      RowTotal(ordered[1..], remaining - take, chunk);
      DemandHead(ordered, chunk);
      assert |Rows(ordered, remaining, chunk)| == take + |Rows(ordered[1..], remaining - take, chunk)|;
      PackStep(remaining, Share(ordered[0], chunk), Demand(ordered[1..], chunk));
    }
  }

  lemma PackStep(remaining: int, share: nat, rest: nat)
    ensures var take := if remaining <= 0 then 0 else Min(share, remaining);
            take + (if remaining - take <= 0 then 0 else Min(remaining - take, rest))
            == if remaining <= 0 then 0 else Min(remaining, share + rest)
  {
  }

  /** Maximal packing: the batch is full, or it takes everybody's whole share. */
  lemma BuildPacks(active: seq<ActiveSeq>, capacity: nat, chunk: nat)
    ensures |Build(active, capacity, chunk)| == Min(capacity, Demand(active, chunk))
  {
    RowTotal(Sorted(active), capacity, chunk);
    DemandSorted(active, chunk);
  }

  lemma {:induction false} RowsOfAppend(a: seq<Row>, b: seq<Row>, slot: nat)
    ensures RowsOf(a + b, slot) == RowsOf(a, slot) + RowsOf(b, slot)
  {
    if b == [] {
      assert a + b == a;
    } else {
      var n := |b| - 1;
      RowsOfAppend(a, b[..n], slot);
      assert (a + b)[..|a + b| - 1] == a + b[..n];
    }
  }

  lemma {:induction false} RowsOfOne(rows: seq<Row>, slot: nat, mine: bool)
    requires forall i :: 0 <= i < |rows| ==> (rows[i].seqId == slot <==> mine)
    ensures RowsOf(rows, slot) == if mine then rows else []
  {
    if rows != [] {
      RowsOfOne(rows[..|rows| - 1], slot, mine);
      assert rows == rows[..|rows| - 1] + [rows[|rows| - 1]];
    }
  }

  /** How many rows the i-th sequence in order gets. */
  function TakeAt(ordered: seq<ActiveSeq>, remaining: int, chunk: nat, i: nat): (n: nat)
    requires i < |ordered|
    decreases i
  {
    var take := Take(ordered[0], remaining, chunk);
    if i == 0 then take else TakeAt(ordered[1..], remaining - take, chunk, i - 1)
  }

  lemma {:induction false} NoForeignRows(ordered: seq<ActiveSeq>, remaining: int, chunk: nat, slot: nat)
    requires forall i :: 0 <= i < |ordered| ==> ordered[i].seqId != slot
    ensures RowsOf(Rows(ordered, remaining, chunk), slot) == []
    decreases |ordered|
  {
    if ordered != [] {
      var take := Take(ordered[0], remaining, chunk);
      NoForeignRows(ordered[1..], remaining - take, chunk, slot);
      HeadRows(ordered, remaining, chunk, slot);
    }
  }

  lemma FirstSlice(ordered: seq<ActiveSeq>, remaining: int, chunk: nat)
    requires DistinctSlots(ordered) && ordered != []
    ensures RowsOf(Rows(ordered, remaining, chunk), ordered[0].seqId) ==
            Slice(ordered[0], Take(ordered[0], remaining, chunk))
  {
    var take, rest := Take(ordered[0], remaining, chunk), ordered[1..];
    HeadRows(ordered, remaining, chunk, ordered[0].seqId);
    forall i | 0 <= i < |rest| ensures rest[i].seqId != ordered[0].seqId {
      assert rest[i] == ordered[i + 1];
    }
    NoForeignRows(rest, remaining - take, chunk, ordered[0].seqId);
  }

  lemma TailDistinct(ordered: seq<ActiveSeq>)
    requires DistinctSlots(ordered) && ordered != []
    ensures DistinctSlots(ordered[1..])
  {
  }

  lemma OtherRows(ordered: seq<ActiveSeq>, remaining: int, chunk: nat, slot: nat)
    requires ordered != [] && slot != ordered[0].seqId
    ensures RowsOf(Rows(ordered, remaining, chunk), slot) ==
            RowsOf(Rows(ordered[1..], remaining - Take(ordered[0], remaining, chunk), chunk), slot)
  {
    HeadRows(ordered, remaining, chunk, slot);
  }

  /** Faithful packing: a sequence's rows are one slice of its pending tokens. */
  lemma {:induction false} RowsAreSlices(ordered: seq<ActiveSeq>, remaining: int, chunk: nat, i: nat)
    requires DistinctSlots(ordered) && i < |ordered|
    ensures IsSlice(RowsOf(Rows(ordered, remaining, chunk), ordered[i].seqId), ordered[i],
                    TakeAt(ordered, remaining, chunk, i), chunk)
    decreases |ordered|
  {
    if i == 0 {
      FirstSlice(ordered, remaining, chunk);
    } else {
      var rest, left := ordered[1..], remaining - Take(ordered[0], remaining, chunk);
      OtherRows(ordered, remaining, chunk, ordered[i].seqId);
      TailDistinct(ordered);
      RowsAreSlices(rest, left, chunk, i - 1);
    }
  }

  /** The first `take` pending tokens, at most one chunk of them. */
  ghost predicate IsSlice(rows: seq<Row>, a: ActiveSeq, take: nat, chunk: nat)
  {
    take <= Share(a, chunk) && rows == Slice(a, take)
  }

  lemma HeadRows(ordered: seq<ActiveSeq>, remaining: int, chunk: nat, slot: nat)
    requires ordered != []
    ensures var take := Take(ordered[0], remaining, chunk);
            RowsOf(Rows(ordered, remaining, chunk), slot) ==
            (if ordered[0].seqId == slot then Slice(ordered[0], take) else [])
              + RowsOf(Rows(ordered[1..], remaining - take, chunk), slot)
  {
    var take := Take(ordered[0], remaining, chunk);
    RowsOfAppend(Slice(ordered[0], take), Rows(ordered[1..], remaining - take, chunk), slot);
    RowsOfOne(Slice(ordered[0], take), slot, ordered[0].seqId == slot);
  }

  /** Shortest first: once somebody has to be cut short, those after get nothing. */
  lemma {:induction false} CutShortFirst(ordered: seq<ActiveSeq>, remaining: int, chunk: nat, i: nat, j: nat)
    requires i < j < |ordered| && TakeAt(ordered, remaining, chunk, i) < Share(ordered[i], chunk)
    ensures TakeAt(ordered, remaining, chunk, j) == 0
    decreases |ordered|
  {
    var take := Take(ordered[0], remaining, chunk);
    if i == 0 {
      NothingLeft(ordered[1..], remaining - take, chunk, j - 1);
    } else {
      CutShortFirst(ordered[1..], remaining - take, chunk, i - 1, j - 1);
    }
  }

  lemma {:induction false} NothingLeft(ordered: seq<ActiveSeq>, remaining: int, chunk: nat, j: nat)
    requires j < |ordered| && remaining <= 0
    ensures TakeAt(ordered, remaining, chunk, j) == 0
    decreases j
  {
    if j > 0 { NothingLeft(ordered[1..], remaining, chunk, j - 1); }
  }

  /** With room for the whole demand everybody gets a full share. */
  lemma {:induction false} FullShares(ordered: seq<ActiveSeq>, remaining: int, chunk: nat, i: nat)
    requires i < |ordered| && Demand(ordered, chunk) <= remaining
    ensures TakeAt(ordered, remaining, chunk, i) == Share(ordered[i], chunk)
    decreases |ordered|
  {
    DemandHead(ordered, chunk);
    if i > 0 {
      FullShares(ordered[1..], remaining - Take(ordered[0], remaining, chunk), chunk, i - 1);
    }
  }

  /** What the loop relies on: with room for the whole demand, the rows of each sequence are
      exactly its full share. */
  lemma BuildGivesFullShares(active: seq<ActiveSeq>, capacity: nat, chunk: nat, a: ActiveSeq)
    requires DistinctSlots(active) && Demand(active, chunk) <= capacity && a in active
    ensures RowsOf(Build(active, capacity, chunk), a.seqId) == Slice(a, Share(a, chunk))
  {
    var ordered := Sorted(active);
    SortedMembers(active, a);
    SortedDistinct(active);
    DemandSorted(active, chunk);
    var i :| 0 <= i < |ordered| && ordered[i] == a;
    RowsAreSlices(ordered, capacity, chunk, i);
    FullShares(ordered, capacity, chunk, i);
  }

  /** Every row belongs to somebody in the list. */
  lemma BuildRowsAreOwned(active: seq<ActiveSeq>, capacity: nat, chunk: nat, slot: nat)
    requires forall i :: 0 <= i < |active| ==> active[i].seqId != slot
    ensures RowsOf(Build(active, capacity, chunk), slot) == []
  {
    var ordered := Sorted(active);
    forall i | 0 <= i < |ordered| ensures ordered[i].seqId != slot {
      SortedMembers(active, ordered[i]);
    }
    NoForeignRows(ordered, capacity, chunk, slot);
  }

  lemma ShorterComesFirst(ordered: seq<ActiveSeq>, i: nat, j: nat)
    requires Ascending(ordered) && i < |ordered| && j < |ordered| && |ordered[i].pending| < |ordered[j].pending|
    ensures i < j
  {
  }

  /** Shortest first: when somebody gets less than a full share, nobody with more pending tokens
      gets a row. */
  lemma ShortestFirst(active: seq<ActiveSeq>, capacity: nat, chunk: nat, a: ActiveSeq, b: ActiveSeq)
    requires DistinctSlots(active) && a in active && b in active && |a.pending| < |b.pending|
    requires RowCount(Build(active, capacity, chunk), a.seqId) < Share(a, chunk)
    ensures RowCount(Build(active, capacity, chunk), b.seqId) == 0
  {
    var ordered := Sorted(active);
    SortedMembers(active, a);
    SortedMembers(active, b);
    SortedDistinct(active);
    SortedAscending(active);
    var i :| 0 <= i < |ordered| && ordered[i] == a;
    var j :| 0 <= j < |ordered| && ordered[j] == b;
    ShorterComesFirst(ordered, i, j);
    RowsAreSlices(ordered, capacity, chunk, i);
    RowsAreSlices(ordered, capacity, chunk, j);
    CutShortFirst(ordered, capacity, chunk, i, j);
  }

  lemma {:induction false} RowsThere(rows: seq<Row>, i: nat)
    requires i < |rows|
    ensures RowsOf(rows, rows[i].seqId) != []
  {
    if i < |rows| - 1 { RowsThere(rows[..|rows| - 1], i); }
  }
}
