/**
  The DualKV backward in parallel: every tile of every sequence is a program of its own, and the query
  gradients and the context gradients are atomic adds of all of them. Their order does not matter.
 */
module DualKVAtomicAdds {
  import opened RealSums
  import opened LinearAlgebra
  import opened Attention
  import opened CxxArithmetic
  import opened AtomicAdds
  import opened DualKV
  import opened DualKVTiles
  import opened DualKVBackward

  /** The sequences of the batch are launchable and agree in context length and head dimension. */
  ghost predicate Batch(bs: seq<Backward>, cuQ: seq<nat>, cuK: seq<nat>, contextLen: nat, headdim: nat) {
    Packed(bs, cuQ, cuK) && SharedContext(bs, contextLen, headdim)
  }

  // ----- Query gradients ------------------------------------------------------------------------------

  /** The add of tile `tile` of sequence `sequence` to column `col` of the sequence's row `row`. */
  datatype QueryAdd = QueryAdd(sequence: nat, tile: nat, row: nat, col: nat)

  ghost predicate Visits(b: Backward, tile: nat, row: nat) {
    b.a.Valid() && tile < AllTiles(b) && b.MBlockMin(tile) * b.a.blockM <= row < b.a.seqlenQ
  }

  /** Every program has issued each of its adds once: one for every row from its first row block on. */
  ghost predicate QueryRun(bs: seq<Backward>, headdim: nat, run: seq<QueryAdd>) {
    && Once(run)
    && forall x: nat, n: nat, i: nat, c: nat ::
         QueryAdd(x, n, i, c) in run <==> x < |bs| && Visits(bs[x], n, i) && c < headdim
  }

  ghost predicate QueryAddsInBatch(bs: seq<Backward>, run: seq<QueryAdd>) {
    forall k | 0 <= k < |run| :: run[k].sequence < |bs| && Visits(bs[run[k].sequence], run[k].tile, run[k].row)
  }

  /** The adds to a cell of the packed buffer. */
  function HitsRow(cuQ: seq<nat>, row: nat, c: nat): QueryAdd -> bool {
    (add: QueryAdd) => add.sequence < |cuQ| && cuQ[add.sequence] + add.row == row && add.col == c
  }

  ghost function AddedToQuery(bs: seq<Backward>): QueryAdd -> real
    requires forall x | 0 <= x < |bs| :: bs[x].a.Valid()
  {
    (add: QueryAdd) =>
      if add.sequence < |bs| then Contribution(bs[add.sequence], add.tile, add.row, add.col) else 0.0
  }

  function TileOf(): QueryAdd -> int {
    (add: QueryAdd) => add.tile
  }

  function Contributions(b: Backward, i: int, c: int): Vector
    requires b.a.Valid()
  {
    n => Contribution(b, n, i, c)
  }

  lemma BatchIsValid(bs: seq<Backward>, contextLen: nat, headdim: nat)
    requires SharedContext(bs, contextLen, headdim)
    ensures forall x | 0 <= x < |bs| :: bs[x].a.Valid()
  {
  }

  lemma RunInBatch(bs: seq<Backward>, headdim: nat, run: seq<QueryAdd>)
    requires QueryRun(bs, headdim, run)
    ensures QueryAddsInBatch(bs, run)
  {
    hide Visits;
    forall k | 0 <= k < |run|
      ensures run[k].sequence < |bs| && Visits(bs[run[k].sequence], run[k].tile, run[k].row)
    {
      assert QueryAdd(run[k].sequence, run[k].tile, run[k].row, run[k].col) in run;
    }
  }

  /** Rows of different sequences are different rows of the packed buffer. */
  lemma RowsApart(bs: seq<Backward>, cuQ: seq<nat>, cuK: seq<nat>, x: nat, i: nat, y: nat, j: nat)
    requires Packed(bs, cuQ, cuK) && x < |bs| && y < |bs| && i < bs[x].a.seqlenQ && j < bs[y].a.seqlenQ
    requires cuQ[x] + i == cuQ[y] + j
    ensures x == y && i == j
  {
    if x < y {
      OffsetsOrdered(bs, cuQ, cuK, x, y);
    } else if y < x {
      OffsetsOrdered(bs, cuQ, cuK, y, x);
    }
  }

  /** An add that hits a row's cell is an add of the row's sequence. */
  lemma HitIsOwn(bs: seq<Backward>, cuQ: seq<nat>, cuK: seq<nat>, run: seq<QueryAdd>, x: nat, i: nat, c: nat, k: nat)
    requires Packed(bs, cuQ, cuK) && QueryAddsInBatch(bs, run) && x < |bs| && i < bs[x].a.seqlenQ && k < |run|
    requires HitsRow(cuQ, cuQ[x] + i, c)(run[k])
    ensures run[k] == QueryAdd(x, run[k].tile, i, c) && run[k].tile < AllTiles(bs[x])
  {
    var add := run[k];
    assert Visits(bs[add.sequence], add.tile, add.row);
    RowsApart(bs, cuQ, cuK, x, i, add.sequence, add.row);
  }

  /** A tile without an add to a row contributes nothing to it. */
  lemma NotReached(bs: seq<Backward>, cuQ: seq<nat>, headdim: nat, run: seq<QueryAdd>, x: nat, n: nat, i: nat, c: nat)
    requires QueryRun(bs, headdim, run) && x < |bs| < |cuQ| && bs[x].Launchable() && c < headdim
    requires n < AllTiles(bs[x]) && i < bs[x].a.seqlenQ
    requires !Reached(run, HitsRow(cuQ, cuQ[x] + i, c), TileOf(), n)
    ensures Contribution(bs[x], n, i, c) == 0.0
  {
    assert QueryAdd(x, n, i, c) !in run;
    SkippedContribution(bs[x], n, i, c);
  }

  /** The adds that hit a row's cell are the contributions of the sequence's tiles. */
  lemma TilesListed(bs: seq<Backward>, cuQ: seq<nat>, cuK: seq<nat>, contextLen: nat, headdim: nat,
                    run: seq<QueryAdd>, x: nat, i: nat, c: nat)
    requires Batch(bs, cuQ, cuK, contextLen, headdim) && QueryRun(bs, headdim, run)
    requires x < |bs| && i < bs[x].a.seqlenQ && c < headdim
    ensures forall y | 0 <= y < |bs| :: bs[y].a.Valid()
    ensures Numbered(run, HitsRow(cuQ, cuQ[x] + i, c), TileOf(), AllTiles(bs[x]))
    ensures Lists(run, HitsRow(cuQ, cuQ[x] + i, c), AddedToQuery(bs), TileOf(), AllTiles(bs[x]),
                Contributions(bs[x], i, c))
  {
    BatchIsValid(bs, contextLen, headdim);
    RunInBatch(bs, headdim, run);
    assert bs[x].Launchable();
    hide Contribution, Backward.Launchable, AllTiles, Visits, Launch.Valid;
    var hits, n := HitsRow(cuQ, cuQ[x] + i, c), AllTiles(bs[x]);
    forall k | 0 <= k < |run| && hits(run[k])
      ensures run[k] == QueryAdd(x, run[k].tile, i, c) && run[k].tile < n
    {
      HitIsOwn(bs, cuQ, cuK, run, x, i, c, k);
    }
    forall t | 0 <= t < n && !Reached(run, hits, TileOf(), t) ensures Contribution(bs[x], t, i, c) == 0.0 {
      NotReached(bs, cuQ, headdim, run, x, t, i, c);
    }
  }

  /**
    In whatever order the adds of all tiles and sequences land, after the final scaling every query row
    holds its reference gradient.
   */
  lemma QueryAddsMatch(bs: seq<Backward>, cuQ: seq<nat>, cuK: seq<nat>, contextLen: nat, headdim: nat,
                       run: seq<QueryAdd>, x: nat, i: nat, c: nat)
    requires Batch(bs, cuQ, cuK, contextLen, headdim) && QueryRun(bs, headdim, run)
    requires x < |bs| && i < bs[x].a.seqlenQ && c < headdim
    ensures forall y | 0 <= y < |bs| :: bs[y].a.Valid()
    ensures bs[x].a.scale * Landed(run, HitsRow(cuQ, cuQ[x] + i, c), AddedToQuery(bs))
         == bs[x].a.Reference().GradQ(bs[x].dout)(i, c)
  {
    hide Contribution, Launch.Reference, Problem.GradQ, TileSums, Numbered, Lists, QueryRun, HitsRow;
    TilesListed(bs, cuQ, cuK, contextLen, headdim, run, x, i, c);
    var b := bs[x];
    LandedIsSum(run, HitsRow(cuQ, cuQ[x] + i, c), AddedToQuery(bs), TileOf(), AllTiles(b), Contributions(b, i, c));
    ContributionsSum(b, i, c);
  }

  lemma ContributionsSum(b: Backward, i: nat, c: int)
    requires b.Launchable() && i < b.a.seqlenQ
    ensures b.a.Valid()
    ensures b.a.scale * Sum(0, AllTiles(b), Contributions(b, i, c)) == b.a.Reference().GradQ(b.dout)(i, c)
  {
    hide Launch.Reference, Problem.GradQ, TileSums, Backward.LogicalQueryTerms, Sum, Backward.QueryTerms;
    LaunchableIsValid(b);
    forall n | 0 <= n < AllTiles(b)
      ensures Contributions(b, i, c)(n) == TileSums(b.a, b.LogicalQueryTerms(i, c))(n)
    {
      b.QueryTile(i, n, c);
    }
    hide Contributions;
    SumCongruence(0, AllTiles(b), Contributions(b, i, c), TileSums(b.a, b.LogicalQueryTerms(i, c)));
    b.QuerySumMatches(i, c);
  }

  // ----- Context gradients ------------------------------------------------------------------------------

  /** The add of slot `slot` of a context tile of `sequence` to column `col` of the key's gradient. */
  datatype ContextAdd = ContextAdd(sequence: nat, tile: nat, slot: nat, col: nat)

  ghost predicate AddsSlot(b: Backward, tile: nat, slot: nat) {
    b.a.Valid() && tile < b.a.BlocksContext() && b.a.IsKey(tile, slot)
  }

  /** Every program of a context tile has issued each of its adds once: one for every slot that holds a key. */
  ghost predicate ContextRun(bs: seq<Backward>, headdim: nat, run: seq<ContextAdd>) {
    && Once(run)
    && forall x: nat, n: nat, s: nat, c: nat ::
         ContextAdd(x, n, s, c) in run <==> x < |bs| && AddsSlot(bs[x], n, s) && c < headdim
  }

  /** What the program of a tile holds after its walk, scaled: the postcondition of `ColBlock`. */
  ghost predicate TileGrads(bs: seq<Backward>, ofKeys: bool, tiles: (nat, nat) -> Tensor) {
    forall x: nat, n: nat, s: nat, c: nat | x < |bs| && AddsSlot(bs[x], n, s) ::
      tiles(x, n)(s, c) == Grad(bs[x], ofKeys)(bs[x].a.KeyPos(n) + s, c)
  }

  /** The adds to a cell of the context buffer. */
  ghost function HitsKey(bs: seq<Backward>, j: nat, c: nat): ContextAdd -> bool {
    (add: ContextAdd) =>
      add.sequence < |bs| && add.tile * bs[add.sequence].a.blockN + add.slot == j && add.col == c
  }

  function AddedToContext(tiles: (nat, nat) -> Tensor): ContextAdd -> real {
    (add: ContextAdd) => tiles(add.sequence, add.tile)(add.slot, add.col)
  }

  function SequenceOf(): ContextAdd -> int {
    (add: ContextAdd) => add.sequence
  }

  lemma AddsSlotBounds(b: Backward, tile: nat, slot: nat)
    requires AddsSlot(b, tile, slot)
    ensures 0 <= slot < b.a.blockN && b.a.KeyPos(tile) == tile * b.a.blockN
  {
  }

  /** Every context key has its slot in every sequence. */
  lemma SlotOfKey(b: Backward, j: nat) returns (tile: nat, slot: nat)
    requires b.a.Valid() && j < b.a.contextLen
    ensures AddsSlot(b, tile, slot) && tile * b.a.blockN + slot == j
  {
    hide CeilDiv;
    b.a.BlockCounts();
    DivBounds(j, b.a.blockN);
    tile, slot := j / b.a.blockN, j % b.a.blockN;
    assert j == tile * b.a.blockN + slot;
    ProductOrder(b.a.BlocksContext(), tile, b.a.blockN);
  }

  lemma ContextRunAdds(bs: seq<Backward>, headdim: nat, run: seq<ContextAdd>, k: nat)
    requires ContextRun(bs, headdim, run) && k < |run|
    ensures run[k].sequence < |bs| && AddsSlot(bs[run[k].sequence], run[k].tile, run[k].slot)
  {
    assert ContextAdd(run[k].sequence, run[k].tile, run[k].slot, run[k].col) in run;
  }

  /** A sequence adds to a cell at most once. */
  lemma HitsApart(bs: seq<Backward>, headdim: nat, run: seq<ContextAdd>, j: nat, c: nat, k: nat, l: nat)
    requires ContextRun(bs, headdim, run) && k < l < |run|
    requires HitsKey(bs, j, c)(run[k]) && HitsKey(bs, j, c)(run[l])
    ensures run[k].sequence != run[l].sequence
  {
    hide AddsSlot;
    ContextRunAdds(bs, headdim, run, k);
    ContextRunAdds(bs, headdim, run, l);
    if run[k].sequence == run[l].sequence {
      var b := bs[run[k].sequence];
      AddsSlotBounds(b, run[k].tile, run[k].slot);
      AddsSlotBounds(b, run[l].tile, run[l].slot);
      QuotientUnique(j, run[k].tile, run[k].slot, b.a.blockN);
      QuotientUnique(j, run[l].tile, run[l].slot, b.a.blockN);
    }
  }

  lemma HitValue(bs: seq<Backward>, ofKeys: bool, headdim: nat, tiles: (nat, nat) -> Tensor, run: seq<ContextAdd>,
                 j: nat, c: nat, k: nat)
    requires ContextRun(bs, headdim, run) && TileGrads(bs, ofKeys, tiles) && k < |run| && HitsKey(bs, j, c)(run[k])
    ensures AddedToContext(tiles)(run[k]) == ContextTerms(bs, ofKeys, j, c)(run[k].sequence)
  {
    hide AddsSlot, Grad;
    ContextRunAdds(bs, headdim, run, k);
    AddsSlotBounds(bs[run[k].sequence], run[k].tile, run[k].slot);
  }

  /** Every sequence adds to every context key. */
  lemma SequenceAdds(bs: seq<Backward>, headdim: nat, run: seq<ContextAdd>, j: nat, c: nat, x: nat)
    requires ContextRun(bs, headdim, run) && x < |bs| && bs[x].a.Valid() && j < bs[x].a.contextLen && c < headdim
    ensures Reached(run, HitsKey(bs, j, c), SequenceOf(), x)
  {
    hide AddsSlot;
    var tile, slot := SlotOfKey(bs[x], j);
    assert ContextAdd(x, tile, slot, c) in run;
    var k :| 0 <= k < |run| && run[k] == ContextAdd(x, tile, slot, c);
  }

  /**
    In whatever order the adds of all tiles and sequences land, a context key ends with the sum of its
    gradients in all sequences: what adding them one sequence after another leaves.
   */
  lemma ContextAddsMatch(bs: seq<Backward>, ofKeys: bool, contextLen: nat, headdim: nat,
                         tiles: (nat, nat) -> Tensor, run: seq<ContextAdd>, j: nat, c: nat)
    requires SharedContext(bs, contextLen, headdim) && TileGrads(bs, ofKeys, tiles) && ContextRun(bs, headdim, run)
    requires j < contextLen && c < headdim
    ensures Landed(run, HitsKey(bs, j, c), AddedToContext(tiles)) == Sum(0, |bs|, ContextTerms(bs, ofKeys, j, c))
    ensures Landed(run, HitsKey(bs, j, c), AddedToContext(tiles)) == BatchContext(bs, ofKeys, |bs|)(j, c)
  {
    BatchIsValid(bs, contextLen, headdim);
    var hits := HitsKey(bs, j, c);
    assert forall x | 0 <= x < |bs| :: bs[x].a.contextLen == contextLen;
    hide Grad, Backward.Launchable;
    ContextIsSum(bs, ofKeys, contextLen, |bs|, j, c);
    forall k | 0 <= k < |run| && hits(run[k])
      ensures run[k].sequence < |bs|
      ensures AddedToContext(tiles)(run[k]) == ContextTerms(bs, ofKeys, j, c)(run[k].sequence)
    {
      HitValue(bs, ofKeys, headdim, tiles, run, j, c, k);
    }
    forall k, l | 0 <= k < l < |run| && hits(run[k]) && hits(run[l]) ensures run[k].sequence != run[l].sequence {
      HitsApart(bs, headdim, run, j, c, k, l);
    }
    forall x | 0 <= x < |bs| ensures Reached(run, hits, SequenceOf(), x) {
      SequenceAdds(bs, headdim, run, j, c, x);
    }
    hide ContextTerms, AddedToContext, HitsKey, ContextRun, TileGrads, SharedContext;
    LandedIsSum(run, hits, AddedToContext(tiles), SequenceOf(), |bs|, ContextTerms(bs, ofKeys, j, c));
  }
}
