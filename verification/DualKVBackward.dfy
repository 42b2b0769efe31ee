/**
  The DualKV backward kernel. Each column block recomputes probabilities from the stored log-sum-exp
  and walks the row blocks that can see it. Gradients of context keys are accumulated over all
  sequences; gradients of decoded keys are written by the one sequence that owns them.
 */
module DualKVBackward {
  import opened RealSums
  import opened ExpLogs
  import opened LinearAlgebra
  import opened Attention
  import opened CxxArithmetic
  import opened DualKV
  import opened DualKVTiles
  import opened DualKVForward

  /** One sequence of the backward launch with the row buffers left by the forward and preprocess kernels. */
  datatype Backward = Backward(a: Launch, dout: Tensor, lse: int -> StoredLse, delta: Vector) {

    ghost predicate Launchable() {
      && a.Valid()
      && (forall i | 0 <= i < a.seqlenQ :: lse(i) == ReferenceLse(a, i))
      && (forall i | 0 <= i < a.seqlenQ :: delta(i) == a.Reference().Delta(dout, i))
    }

    /** The recomputed probability; rows past the end and rows without keys hold an infinite log-sum-exp. */
    function Prob(i: int, n: int, col: int): real
      requires a.blockN > 0 && a.scale > 0.0
    {
      if i >= a.seqlenQ || lse(i).Infinite? then 0.0
      else ExpExt(a.el, SubExt(ScaleExt(a.MaskedScore(i, n, col), a.scale), Fin(lse(i).val)))
    }

    function ProbGrad(i: int, n: int, col: int): real
      requires a.blockN > 0
    {
      Inner(a.headdim, Row(dout, i), a.LoadSlot(a.vContext, a.vDecoded, n, col))
    }

    function ScoreGrad(i: int, n: int, col: int): real
      requires a.blockN > 0 && a.scale > 0.0
    {
      Prob(i, n, col) * (ProbGrad(i, n, col) - delta(i))
    }

    // ----- Elementwise agreement ------------------------------------------------------------------

    lemma ProbMatches(i: int, n: int, col: int)
      requires Launchable() && 0 <= i < a.seqlenQ && 0 <= n && 0 <= col < a.blockN
      ensures Prob(i, n, col) == if a.IsKey(n, col) then a.Reference().Prob(i, a.KeyPos(n) + col) else 0.0
    {
      var ref := a.Reference();
      assert lse(i) == ReferenceLse(a, i);
      if ref.Denominator(i) != 0.0 {
        a.SlotWeight(i, n, col);
        ref.DenominatorPositive(i);
        a.el.ExpOfLog(ref.Denominator(i));
        var s := ScaleExt(a.MaskedScore(i, n, col), a.scale);
        ShiftExt(a.el, s, Fin(ref.Lse(i)));
        var w := ExpExt(a.el, s);
        hide a.Reference, a.MaskedScore, ScaleExt, a.KeyPos;
        Quotient(Prob(i, n, col), ref.Denominator(i), w);
        if !a.IsKey(n, col) {
          assert 0.0 / ref.Denominator(i) == 0.0;
        }
      }
    }

    lemma ScoreGradMatches(i: int, n: int, col: int)
      requires Launchable() && 0 <= i < a.seqlenQ && 0 <= n && 0 <= col < a.blockN
      ensures ScoreGrad(i, n, col)
           == if a.IsKey(n, col) then a.Reference().ScoreGrad(dout, i, a.KeyPos(n) + col) else 0.0
    {
      ProbMatches(i, n, col);
      if a.IsKey(n, col) {
        KeyScoreGrad(i, n, col);
      }
    }

    lemma KeyScoreGrad(i: int, n: int, col: int)
      requires Launchable() && 0 <= i < a.seqlenQ && 0 <= n && 0 <= col < a.blockN && a.IsKey(n, col)
      requires Prob(i, n, col) == a.Reference().Prob(i, a.KeyPos(n) + col)
      ensures ScoreGrad(i, n, col) == a.Reference().ScoreGrad(dout, i, a.KeyPos(n) + col)
    {
      DeltaMatches(i);
      a.KeySlot(n, col);
      ProbGradMatches(i, n, col);
      hide Launchable, Launch.Reference, Launch.KeyPos, Launch.IsKey,
           Problem.ProbGrads, Problem.Delta, Problem.ScoreGrad, Problem.Prob, Prob, ProbGrad, Inner;
      var ref, j := a.Reference(), a.KeyPos(n) + col;
      ref.ScoreGradFromDelta(dout, i, j);
      MulCongruence(Prob(i, n, col), ProbGrad(i, n, col) - delta(i), ref.Prob(i, j),
          ref.ProbGrads(dout, i)(j) - ref.Delta(dout, i));
    }

    lemma ProbGradMatches(i: int, n: int, col: int)
      requires Launchable() && 0 <= i < a.seqlenQ && 0 <= n && 0 <= col < a.blockN && a.IsKey(n, col)
      ensures ProbGrad(i, n, col) == a.Reference().ProbGrads(dout, i)(a.KeyPos(n) + col)
    {
      var j := a.KeyPos(n) + col;
      a.SlotLoads(a.vContext, a.vDecoded, n, col);
      InnerCongruence(a.headdim, Row(dout, i), a.LoadSlot(a.vContext, a.vDecoded, n, col), Row(dout, i),
          Row(a.Values(), j));
    }

    lemma DeltaMatches(i: int)
      requires Launchable() && 0 <= i < a.seqlenQ
      ensures a.Valid() && delta(i) == a.Reference().Delta(dout, i)
    {
    }

    // ----- Terms of the accumulated sums -----------------------------------------------------------

    function ValueTerms(n: int, col: int, c: int): Vector
      requires a.blockN > 0 && a.scale > 0.0
    {
      i => Prob(i, n, col) * dout(i, c)
    }

    function KeyTerms(n: int, col: int, c: int): Vector
      requires a.blockN > 0 && a.scale > 0.0
    {
      i => ScoreGrad(i, n, col) * a.q(i, c)
    }

    function QueryTerms(i: int, n: int, c: int): Vector
      requires a.blockN > 0 && a.scale > 0.0
    {
      col => ScoreGrad(i, n, col) * a.LoadSlot(a.kContext, a.kDecoded, n, col)(c)
    }

    /** The unscaled query gradient as a sum over logical keys. */
    function LogicalQueryTerms(i: int, c: int): Vector {
      Products(a.Reference().ScoreGradsOfQuery(dout, i), Column(a.Keys(), c))
    }

    lemma QueryTile(i: int, n: int, c: int)
      requires Launchable() && 0 <= i < a.seqlenQ && 0 <= n
      ensures Sum(0, a.blockN, QueryTerms(i, n, c)) == TileSums(a, LogicalQueryTerms(i, c))(n)
    {
      forall col | 0 <= col < a.blockN
        ensures QueryTerms(i, n, c)(col) == SlotTerms(a, LogicalQueryTerms(i, c), n)(col)
      {
        QuerySlot(i, n, col, c);
      }
      SumCongruence(0, a.blockN, QueryTerms(i, n, c), SlotTerms(a, LogicalQueryTerms(i, c), n));
    }

    lemma QuerySlot(i: int, n: int, col: int, c: int)
      requires Launchable() && 0 <= i < a.seqlenQ && 0 <= n && 0 <= col < a.blockN
      ensures QueryTerms(i, n, c)(col) == SlotTerms(a, LogicalQueryTerms(i, c), n)(col)
    {
      hide ScoreGrad, Launchable, Launch.Reference, Problem.ScoreGrad, Launch.IsKey, Launch.KeyPos, Launch.LoadSlot;
      ValidLaunch();
      ScoreGradMatches(i, n, col);
      var g, x := ScoreGrad(i, n, col), a.LoadSlot(a.kContext, a.kDecoded, n, col)(c);
      assert QueryTerms(i, n, c)(col) == g * x;
      if a.IsKey(n, col) {
        a.SlotLoads(a.kContext, a.kDecoded, n, col);
        var j := a.KeyPos(n) + col;
        MulCongruence(g, x, a.Reference().ScoreGrad(dout, i, j), a.Keys()(j, c));
        assert LogicalQueryTerms(i, c)(j) == a.Reference().ScoreGrad(dout, i, j) * a.Keys()(j, c);
      }
    }

    lemma ValidLaunch()
      requires Launchable()
      ensures a.Valid()
    {
    }

    // ----- The visited rows ------------------------------------------------------------------------

    function MBlockMax(): int
      requires a.blockM > 0
    {
      CeilDiv(a.seqlenQ, a.blockM)
    }

    function MBlockMin(n: int): int
      requires a.blockM > 0 && a.blockN > 0
    {
      if a.isCausal then Max(0, TruncDiv(a.KeyPos(n) + a.seqlenQ - a.SeqlenK(), a.blockM)) else 0
    }

    /** Rows before the first visited block cannot see the tile. */
    lemma SkippedRow(i: int, n: int, col: int)
      requires Launchable() && 0 <= i < a.seqlenQ && i < MBlockMin(n) * a.blockM && 0 <= n && 0 <= col < a.blockN
      ensures Prob(i, n, col) == 0.0 && ScoreGrad(i, n, col) == 0.0
    {
      ProbMatches(i, n, col);
      var start := a.KeyPos(n) + a.seqlenQ - a.SeqlenK();
      TruncDivBounds(start, a.blockM);
      if a.IsKey(n, col) {
        a.KeySlot(n, col);
        hide a.KeyPos, TruncDiv, ScoreGrad;
        assert !a.Reference().allowed(i, a.KeyPos(n) + col);
        a.Reference().MaskedProb(i, a.KeyPos(n) + col);
      }
    }

    /** And no row block is walked in vain: its last row may see the tile's first slot. */
    lemma WalkedRowsSee(n: int, mBlk: int)
      requires a.blockM > 0 && a.blockN > 0 && MBlockMin(n) <= mBlk
      ensures a.isCausal ==> a.KeyPos(n) <= (mBlk + 1) * a.blockM - 1 + a.SeqlenK() - a.seqlenQ
    {
      hide a.KeyPos, TruncDiv;
      var start := a.KeyPos(n) + a.seqlenQ - a.SeqlenK();
      TruncDivBounds(start, a.blockM);
      if a.isCausal {
        ProductOrder(TruncDiv(start, a.blockM) + 1, mBlk + 1, a.blockM);
      }
    }

    lemma RowsBound()
      requires a.blockM > 0
      ensures MBlockMax() >= 0 && MBlockMax() * a.blockM >= a.seqlenQ
    {
      CeilDivBounds(a.seqlenQ, a.blockM);
    }

    /** Sums over the visited row blocks are sums over all queries. */
    lemma SumOverRows(n: int, f: Vector)
      requires Launchable() && 0 <= n
      requires forall i | 0 <= i < a.seqlenQ && i < MBlockMin(n) * a.blockM :: f(i) == 0.0
      requires forall i | i >= a.seqlenQ :: f(i) == 0.0
      ensures MBlockMin(n) < MBlockMax() ==>
                Sum(MBlockMin(n) * a.blockM, MBlockMax() * a.blockM, f) == Sum(0, a.seqlenQ, f)
      ensures MBlockMin(n) >= MBlockMax() ==> Sum(0, a.seqlenQ, f) == 0.0
    {
      var lo, hi := MBlockMin(n) * a.blockM, MBlockMax() * a.blockM;
      RowsBound();
      ProductOrder(MBlockMin(n), MBlockMax(), a.blockM);
      ProductOrder(0, MBlockMin(n), a.blockM);
      hide MBlockMin, MBlockMax;
      if lo < hi {
        SumZero(0, Min(lo, a.seqlenQ), f);
        SumSplit(0, lo, hi, f);
        SumZero(0, lo, f);
        SumSupport(0, a.seqlenQ, hi, f);
      } else {
        SumZero(0, a.seqlenQ, f);
      }
    }

    lemma ValueSumMatches(n: int, col: int, c: int)
      requires Launchable() && 0 <= n && 0 <= col < a.blockN && a.IsKey(n, col)
      ensures Sum(0, a.seqlenQ, ValueTerms(n, col, c)) == a.Reference().GradV(dout)(a.KeyPos(n) + col, c)
    {
      hide Launch.KeyPos, Launch.IsKey, Sum, Prob, Problem.Prob;
      var ref, j := a.Reference(), a.KeyPos(n) + col;
      forall i | 0 <= i < a.seqlenQ
        ensures ValueTerms(n, col, c)(i) == Products(ref.ProbsOfKey(j), Column(dout, c))(i)
      {
        ProbMatches(i, n, col);
      }
      SumCongruence(0, a.seqlenQ, ValueTerms(n, col, c), Products(ref.ProbsOfKey(j), Column(dout, c)));
      assert Combination(a.seqlenQ, ref.ProbsOfKey(j), dout)(c) == Inner(a.seqlenQ, ref.ProbsOfKey(j), Column(dout, c));
    }

    lemma KeyTermMatches(i: int, n: int, col: int, c: int)
      requires Launchable() && 0 <= i < a.seqlenQ && 0 <= n && 0 <= col < a.blockN && a.IsKey(n, col)
      ensures KeyTerms(n, col, c)(i)
           == Products(a.Reference().ScoreGradsOfKey(dout, a.KeyPos(n) + col), Column(a.q, c))(i)
    {
      assert a.Valid();
      hide ScoreGrad, Launch.KeyPos, Launch.IsKey, Problem.ScoreGrad, Launchable;
      ScoreGradMatches(i, n, col);
      MulCongruence(ScoreGrad(i, n, col), a.q(i, c), a.Reference().ScoreGrad(dout, i, a.KeyPos(n) + col), a.q(i, c));
    }

    lemma KeySumMatches(n: int, col: int, c: int)
      requires Launchable() && 0 <= n && 0 <= col < a.blockN && a.IsKey(n, col)
      ensures a.scale * Sum(0, a.seqlenQ, KeyTerms(n, col, c)) == a.Reference().GradK(dout)(a.KeyPos(n) + col, c)
    {
      hide Launch.KeyPos, Launch.IsKey, Sum, Products, KeyTerms, Problem.ScoreGradsOfKey;
      var ref, j := a.Reference(), a.KeyPos(n) + col;
      forall i | 0 <= i < a.seqlenQ
        ensures KeyTerms(n, col, c)(i) == Products(ref.ScoreGradsOfKey(dout, j), Column(a.q, c))(i)
      {
        KeyTermMatches(i, n, col, c);
      }
      SumCongruence(0, a.seqlenQ, KeyTerms(n, col, c), Products(ref.ScoreGradsOfKey(dout, j), Column(a.q, c)));
      assert Combination(a.seqlenQ, ref.ScoreGradsOfKey(dout, j), a.q)(c)
          == Inner(a.seqlenQ, ref.ScoreGradsOfKey(dout, j), Column(a.q, c));
    }

    /** All tiles together give the reference query gradient, after the final scaling. */
    lemma QuerySumMatches(i: int, c: int)
      requires Launchable() && 0 <= i < a.seqlenQ
      ensures a.scale * Sum(0, a.BlocksContext() + a.BlocksDecoded(), TileSums(a, LogicalQueryTerms(i, c)))
           == a.Reference().GradQ(dout)(i, c)
    {
      hide Sum, TileSums, Launch.Keys, Products, Problem.ScoreGradsOfQuery;
      var ref := a.Reference();
      TilesCoverKeys(a, LogicalQueryTerms(i, c));
      assert Combination(a.SeqlenK(), ref.ScoreGradsOfQuery(dout, i), a.Keys())(c)
          == Inner(a.SeqlenK(), ref.ScoreGradsOfQuery(dout, i), Column(a.Keys(), c));
    }
  }

  // ----- One column block ---------------------------------------------------------------------------

  function AddValues(b: Backward, n: int, acc: Tensor, lo: int, hi: int): Tensor
    requires b.a.Valid()
  {
    (col, c) => acc(col, c) + Sum(lo, hi, b.ValueTerms(n, col, c))
  }

  function AddKeys(b: Backward, n: int, acc: Tensor, lo: int, hi: int): Tensor
    requires b.a.Valid()
  {
    (col, c) => acc(col, c) + Sum(lo, hi, b.KeyTerms(n, col, c))
  }

  /** The accumulators hold the sums over the rows `lo .. hi`. */
  ghost predicate Accumulated(b: Backward, n: int, dv: Tensor, dk: Tensor, lo: int, hi: int)
    requires b.a.Valid()
  {
    forall col, c :: dv(col, c) == Sum(lo, hi, b.ValueTerms(n, col, c)) &&
      dk(col, c) == Sum(lo, hi, b.KeyTerms(n, col, c))
  }

  lemma AccumulateTile(b: Backward, n: int, dv: Tensor, dk: Tensor, lo: int, mid: int, hi: int)
    requires b.a.Valid() && Accumulated(b, n, dv, dk, mid, hi) && lo <= mid <= hi
    ensures Accumulated(b, n, AddValues(b, n, dv, lo, mid), AddKeys(b, n, dk, lo, mid), lo, hi)
  {
    forall col, c
      ensures AddValues(b, n, dv, lo, mid)(col, c) == Sum(lo, hi, b.ValueTerms(n, col, c))
      ensures AddKeys(b, n, dk, lo, mid)(col, c) == Sum(lo, hi, b.KeyTerms(n, col, c))
    {
      SumSplit(lo, mid, hi, b.ValueTerms(n, col, c));
      SumSplit(lo, mid, hi, b.KeyTerms(n, col, c));
    }
  }

  /** What tile `n` adds to row `i` of the unscaled query gradient. */
  function Contribution(b: Backward, n: int, i: int, c: int): real
    requires b.a.Valid()
  {
    Sum(0, b.a.blockN, b.QueryTerms(i, n, c))
  }

  /** The sequence's rows from `first` on have received tile `n`; every other row of the buffer is as before. */
  ghost predicate Added(b: Backward, n: int, sumQ: nat, dq: array2<real>, before: Tensor, first: int)
    requires b.a.Valid() && dq.Length1 == b.a.headdim
    reads dq
  {
    forall x, c | 0 <= x < dq.Length0 && 0 <= c < b.a.headdim ::
      dq[x, c] == before(x, c)
                  + if first <= x - sumQ < b.a.seqlenQ && x >= sumQ then Contribution(b, n, x - sumQ, c) else 0.0
  }

  /** The atomic adds of one row block to the query gradient accumulator. */
  method AddDqRows(b: Backward, n: int, sumQ: nat, lo: nat, dq: array2<real>, ghost before: Tensor)
    requires b.a.Valid() && dq.Length1 == b.a.headdim && sumQ + b.a.seqlenQ <= dq.Length0
    requires Added(b, n, sumQ, dq, before, lo + b.a.blockM)
    modifies dq
    ensures Added(b, n, sumQ, dq, before, lo)
  {
    hide Contribution;
    forall i, c | lo <= i < lo + b.a.blockM && i < b.a.seqlenQ && 0 <= c < b.a.headdim {
      dq[sumQ + i, c] := dq[sumQ + i, c] + Contribution(b, n, i, c);
    }
    forall x, c | 0 <= x < dq.Length0 && 0 <= c < b.a.headdim
      ensures dq[x, c] == before(x, c)
                + if lo <= x - sumQ < b.a.seqlenQ && x >= sumQ then Contribution(b, n, x - sumQ, c) else 0.0
    {
      if lo <= x - sumQ < lo + b.a.blockM && x - sumQ < b.a.seqlenQ {
        var i := x - sumQ;
        assert dq[sumQ + i, c] == old(dq[sumQ + i, c]) + Contribution(b, n, i, c);
      }
    }
  }

  /** The loop over row blocks, from the last one up to the first that can see the tile. */
  method ColBlock(b: Backward, n: nat, sumQ: nat, dq: array2<real>, ghost before: Tensor)
    returns (dvAcc: Tensor, dkAcc: Tensor)
    requires b.Launchable() && dq.Length1 == b.a.headdim && sumQ + b.a.seqlenQ <= dq.Length0
    requires Added(b, n, sumQ, dq, before, b.a.seqlenQ)
    modifies dq
    ensures Added(b, n, sumQ, dq, before, 0)
    ensures forall col, c | 0 <= col < b.a.blockN && b.a.IsKey(n, col) ::
              && dvAcc(col, c) == b.a.Reference().GradV(b.dout)(b.a.KeyPos(n) + col, c)
              && b.a.scale * dkAcc(col, c) == b.a.Reference().GradK(b.dout)(b.a.KeyPos(n) + col, c)
  {
    hide Added, Accumulated, AddValues, AddKeys, b.Launchable, b.MBlockMin, b.MBlockMax, b.a.Reference, Contribution;
    assert b.a.Valid() by { LaunchableIsValid(b); }
    dvAcc := (col, c) => 0.0;
    dkAcc := (col, c) => 0.0;
    var mBlockMax, mBlockMin := b.MBlockMax(), b.MBlockMin(n);
    MinNonNegative(b, n);
    b.RowsBound();
    var mBlk := mBlockMax - 1;
    ghost var hi := mBlockMax * b.a.blockM;
    StartRows(b, n, sumQ, dq, before, hi, dvAcc, dkAcc);
    if mBlockMax > mBlockMin {
      while mBlk >= mBlockMin
        invariant mBlockMin - 1 <= mBlk < mBlockMax
        invariant Accumulated(b, n, dvAcc, dkAcc, (mBlk + 1) * b.a.blockM, hi)
        invariant Added(b, n, sumQ, dq, before, (mBlk + 1) * b.a.blockM)
      {
        var lo := mBlk * b.a.blockM;
        ProductOrder(0, mBlk, b.a.blockM);
        ProductOrder(mBlk + 1, mBlockMax, b.a.blockM);
        assert (mBlk + 1) * b.a.blockM == lo + b.a.blockM;
        AccumulateTile(b, n, dvAcc, dkAcc, lo, lo + b.a.blockM, hi);
        dvAcc := AddValues(b, n, dvAcc, lo, lo + b.a.blockM);
        dkAcc := AddKeys(b, n, dkAcc, lo, lo + b.a.blockM);
        AddDqRows(b, n, sumQ, lo, dq, before);
        mBlk := mBlk - 1;
      }
      SkippedRows(b, n, sumQ, dq, before, mBlockMin * b.a.blockM);
      FinishedTile(b, n, dvAcc, dkAcc, true);
    } else {
      NoRows(b, n, sumQ, dq, before);
      FinishedTile(b, n, dvAcc, dkAcc, false);
    }
  }

  lemma LaunchableIsValid(b: Backward)
    requires b.Launchable()
    ensures b.a.Valid()
  {
  }

  lemma MinNonNegative(b: Backward, n: nat)
    requires b.a.Valid()
    ensures b.MBlockMin(n) >= 0
  {
  }

  lemma StartRows(b: Backward, n: nat, sumQ: nat, dq: array2<real>, before: Tensor, hi: int, dv: Tensor, dk: Tensor)
    requires b.a.Valid() && dq.Length1 == b.a.headdim && hi >= b.a.seqlenQ
    requires Added(b, n, sumQ, dq, before, b.a.seqlenQ)
    requires forall col, c :: dv(col, c) == 0.0 == dk(col, c)
    ensures Added(b, n, sumQ, dq, before, hi)
    ensures Accumulated(b, n, dv, dk, hi, hi)
  {
    hide Contribution;
  }

  /** Rows that the walk skips would have received zero. */
  lemma SkippedContribution(b: Backward, n: nat, i: int, c: int)
    requires b.Launchable() && 0 <= i < b.a.seqlenQ && i < b.MBlockMin(n) * b.a.blockM
    ensures Contribution(b, n, i, c) == 0.0
  {
    forall col | 0 <= col < b.a.blockN ensures b.QueryTerms(i, n, c)(col) == 0.0 {
      b.SkippedRow(i, n, col);
    }
    SumZero(0, b.a.blockN, b.QueryTerms(i, n, c));
  }

  lemma SkippedRows(b: Backward, n: nat, sumQ: nat, dq: array2<real>, before: Tensor, first: int)
    requires b.Launchable() && dq.Length1 == b.a.headdim && first == b.MBlockMin(n) * b.a.blockM
    requires Added(b, n, sumQ, dq, before, first)
    ensures Added(b, n, sumQ, dq, before, 0)
  {
    LaunchableIsValid(b);
    hide Contribution, b.MBlockMin, b.Launchable;
    forall i, c | 0 <= i < b.a.seqlenQ && i < first ensures Contribution(b, n, i, c) == 0.0 {
      SkippedContribution(b, n, i, c);
    }
  }

  lemma NoRows(b: Backward, n: nat, sumQ: nat, dq: array2<real>, before: Tensor)
    requires b.Launchable() && dq.Length1 == b.a.headdim && b.MBlockMax() <= b.MBlockMin(n)
    requires Added(b, n, sumQ, dq, before, b.a.seqlenQ)
    ensures Added(b, n, sumQ, dq, before, 0)
  {
    b.RowsBound();
    ProductOrder(b.MBlockMax(), b.MBlockMin(n), b.a.blockM);
    LaunchableIsValid(b);
    hide Contribution, b.MBlockMin, b.Launchable, b.MBlockMax;
    forall i, c | 0 <= i < b.a.seqlenQ ensures Contribution(b, n, i, c) == 0.0 {
      SkippedContribution(b, n, i, c);
    }
  }

  lemma FinishedTile(b: Backward, n: nat, dv: Tensor, dk: Tensor, walked: bool)
    requires b.Launchable() && walked == (b.MBlockMin(n) < b.MBlockMax())
    requires if walked then Accumulated(b, n, dv, dk, b.MBlockMin(n) * b.a.blockM, b.MBlockMax() * b.a.blockM)
             else forall col, c :: dv(col, c) == 0.0 == dk(col, c)
    ensures forall col, c | 0 <= col < b.a.blockN && b.a.IsKey(n, col) ::
              && dv(col, c) == b.a.Reference().GradV(b.dout)(b.a.KeyPos(n) + col, c)
              && b.a.scale * dk(col, c) == b.a.Reference().GradK(b.dout)(b.a.KeyPos(n) + col, c)
  {
    hide Backward.MBlockMin, Backward.MBlockMax, Backward.Launchable, Launch.Reference, Launch.IsKey,
         Launch.KeyPos, Sum, Problem.GradK, Problem.GradV;
    LaunchableIsValid(b);
    forall col, c | 0 <= col < b.a.blockN && b.a.IsKey(n, col)
      ensures dv(col, c) == b.a.Reference().GradV(b.dout)(b.a.KeyPos(n) + col, c)
      ensures b.a.scale * dk(col, c) == b.a.Reference().GradK(b.dout)(b.a.KeyPos(n) + col, c)
    {
      RowTermsVanish(b, n, col, c);
      b.SumOverRows(n, b.ValueTerms(n, col, c));
      b.SumOverRows(n, b.KeyTerms(n, col, c));
      b.ValueSumMatches(n, col, c);
      b.KeySumMatches(n, col, c);
      KeyTermSum(b, n, dv, dk, walked, col, c);
    }
  }

  lemma KeyTermSum(b: Backward, n: nat, dv: Tensor, dk: Tensor, walked: bool, col: int, c: int)
    requires b.a.Valid()
    requires if walked then Accumulated(b, n, dv, dk, b.MBlockMin(n) * b.a.blockM, b.MBlockMax() * b.a.blockM)
             else forall col, c :: dv(col, c) == 0.0 == dk(col, c)
    requires walked ==>
      && Sum(b.MBlockMin(n) * b.a.blockM, b.MBlockMax() * b.a.blockM, b.ValueTerms(n, col, c))
        == Sum(0, b.a.seqlenQ, b.ValueTerms(n, col, c))
      && Sum(b.MBlockMin(n) * b.a.blockM, b.MBlockMax() * b.a.blockM, b.KeyTerms(n, col, c))
        == Sum(0, b.a.seqlenQ, b.KeyTerms(n, col, c))
    requires !walked ==>
               Sum(0, b.a.seqlenQ, b.ValueTerms(n, col, c)) == 0.0 == Sum(0, b.a.seqlenQ, b.KeyTerms(n, col, c))
    ensures dv(col, c) == Sum(0, b.a.seqlenQ, b.ValueTerms(n, col, c))
    ensures dk(col, c) == Sum(0, b.a.seqlenQ, b.KeyTerms(n, col, c))
    ensures b.a.scale * dk(col, c) == b.a.scale * Sum(0, b.a.seqlenQ, b.KeyTerms(n, col, c))
  {
    hide b.MBlockMin, b.MBlockMax, Sum;
  }

  lemma RowTermsVanish(b: Backward, n: nat, col: int, c: int)
    requires b.Launchable() && 0 <= col < b.a.blockN
    ensures forall i | 0 <= i < b.a.seqlenQ && i < b.MBlockMin(n) * b.a.blockM ::
              b.ValueTerms(n, col, c)(i) == 0.0 && b.KeyTerms(n, col, c)(i) == 0.0
    ensures forall i | i >= b.a.seqlenQ :: b.ValueTerms(n, col, c)(i) == 0.0 && b.KeyTerms(n, col, c)(i) == 0.0
  {
    forall i | 0 <= i < b.a.seqlenQ && i < b.MBlockMin(n) * b.a.blockM
      ensures b.ValueTerms(n, col, c)(i) == 0.0 && b.KeyTerms(n, col, c)(i) == 0.0
    {
      b.SkippedRow(i, n, col);
    }
    forall i | i >= b.a.seqlenQ ensures b.ValueTerms(n, col, c)(i) == 0.0 && b.KeyTerms(n, col, c)(i) == 0.0 {
      assert b.Prob(i, n, col) == 0.0;
      assert b.ScoreGrad(i, n, col) == 0.0;
    }
  }

  // ----- One sequence -------------------------------------------------------------------------------

  /** The query gradient buffer after the first `n` tiles of the sequence whose rows start at `sumQ`. */
  function DqAfter(b: Backward, sumQ: nat, before: Tensor, n: int): Tensor
    requires b.a.Valid()
  {
    (x, c) => before(x, c)
              + if sumQ <= x < sumQ + b.a.seqlenQ
                then Sum(0, n, TileSums(b.a, b.LogicalQueryTerms(x - sumQ, c)))
                else 0.0
  }

  ghost predicate Holds(buffer: array2<real>, contents: Tensor)
    reads buffer
  {
    forall x, c | 0 <= x < buffer.Length0 && 0 <= c < buffer.Length1 :: buffer[x, c] == contents(x, c)
  }

  lemma BeginTile(b: Backward, n: nat, sumQ: nat, dq: array2<real>, before: Tensor)
    requires b.a.Valid() && dq.Length1 == b.a.headdim && Holds(dq, before)
    ensures Added(b, n, sumQ, dq, before, b.a.seqlenQ)
  {
    hide Contribution;
  }

  lemma EndTile(b: Backward, n: nat, sumQ: nat, dq: array2<real>, before: Tensor)
    requires b.Launchable() && dq.Length1 == b.a.headdim
    requires Added(b, n, sumQ, dq, DqAfter(b, sumQ, before, n), 0)
    ensures Holds(dq, DqAfter(b, sumQ, before, n + 1))
  {
    hide b.a.Reference, TileSums;
    forall x, c | 0 <= x < dq.Length0 && 0 <= c < dq.Length1
      ensures dq[x, c] == DqAfter(b, sumQ, before, n + 1)(x, c)
    {
      assert dq[x, c] == DqAfter(b, sumQ, before, n)(x, c)
                         + if 0 <= x - sumQ < b.a.seqlenQ && x >= sumQ then Contribution(b, n, x - sumQ, c) else 0.0;
      if sumQ <= x < sumQ + b.a.seqlenQ {
        b.QueryTile(x - sumQ, n, c);
        var sums := TileSums(b.a, b.LogicalQueryTerms(x - sumQ, c));
        assert Sum(0, n + 1, sums) == Sum(0, n, sums) + sums(n);
      }
    }
  }

  /** Context gradients after the tiles below key `keys`: each adds the sequence's gradient of its key. */
  function ContextAfter(before: Tensor, grad: Tensor, keys: int): Tensor {
    (j, c) => before(j, c) + if j < keys then grad(j, c) else 0.0
  }

  /** The atomic adds of one context tile, under the padding mask. */
  method AddContext(b: Backward, n: nat, base: nat, acc: Tensor, factor: real, buffer: array2<real>,
                    ghost before: Tensor, ghost grad: Tensor)
    requires b.a.Valid() && n < b.a.BlocksContext() && base == n * b.a.blockN
    requires buffer.Length0 == b.a.contextLen && buffer.Length1 == b.a.headdim
    requires Holds(buffer, ContextAfter(before, grad, base))
    requires forall col, c | 0 <= col < b.a.blockN && b.a.IsKey(n, col) :: factor * acc(col, c) == grad(base + col, c)
    modifies buffer
    ensures Holds(buffer, ContextAfter(before, grad, base + b.a.blockN))
  {
    hide CeilDiv;
    b.a.BlockCounts();
    ProductOrder(n, b.a.BlocksContext() - 1, b.a.blockN);
    ghost var was: Tensor := ContextAfter(before, grad, base);
    forall j, c | base <= j < base + b.a.ValidK(n) && 0 <= c < b.a.headdim {
      buffer[j, c] := buffer[j, c] + factor * acc(j - base, c);
    }
    forall j, c | 0 <= j < buffer.Length0 && 0 <= c < buffer.Length1
      ensures buffer[j, c] == ContextAfter(before, grad, base + b.a.blockN)(j, c)
    {
      assert old(buffer[j, c]) == was(j, c);
      if base <= j < base + b.a.ValidK(n) {
        assert b.a.IsKey(n, j - base);
        assert factor * acc(j - base, c) == grad(base + (j - base), c);
      }
    }
  }

  lemma ContextPosition(a: Launch, n: nat)
    requires a.blockN > 0 && n < a.BlocksContext()
    ensures a.KeyPos(n) == n * a.blockN
  {
  }

  /** The context tiles of one sequence. */
  method ContextBlocks(b: Backward, sumQ: nat, dq: array2<real>, dkContext: array2<real>, dvContext: array2<real>,
                       ghost before: Tensor, ghost kBefore: Tensor, ghost vBefore: Tensor)
    requires b.Launchable() && dq.Length1 == b.a.headdim && sumQ + b.a.seqlenQ <= dq.Length0
    requires dkContext.Length0 == dvContext.Length0 == b.a.contextLen
    requires dkContext.Length1 == dvContext.Length1 == b.a.headdim
    requires dq != dkContext && dq != dvContext && dkContext != dvContext
    requires Holds(dq, before) && Holds(dkContext, kBefore) && Holds(dvContext, vBefore)
    modifies dq, dkContext, dvContext
    ensures Holds(dq, DqAfter(b, sumQ, before, b.a.BlocksContext()))
    ensures Holds(dkContext, ContextAfter(kBefore, b.a.Reference().GradK(b.dout), b.a.contextLen))
    ensures Holds(dvContext, ContextAfter(vBefore, b.a.Reference().GradV(b.dout), b.a.contextLen))
  {
    hide Backward.Launchable, Launch.Reference, CeilDiv, Launch.KeyPos, Launch.IsKey, Launch.ValidK,
         Launch.BlocksContext, Launch.BlocksDecoded, Added;
    LaunchableIsValid(b);
    ghost var gradK, gradV := b.a.Reference().GradK(b.dout), b.a.Reference().GradV(b.dout);
    StartBuffers(b, sumQ, dq, before, dkContext, kBefore, gradK);
    StartBuffers(b, sumQ, dq, before, dvContext, vBefore, gradV);
    b.a.BlockCounts();
    hide b.Launchable, b.a.Reference, Holds, DqAfter, ContextAfter, CeilDiv, Added;
    var blocks := b.a.BlocksContext();
    var base := 0;
    for n := 0 to blocks
      invariant base == n * b.a.blockN
      invariant Holds(dq, DqAfter(b, sumQ, before, n))
      invariant Holds(dkContext, ContextAfter(kBefore, gradK, base))
      invariant Holds(dvContext, ContextAfter(vBefore, gradV, base))
    {
      BeginTile(b, n, sumQ, dq, DqAfter(b, sumQ, before, n));
      var dvAcc, dkAcc := ColBlock(b, n, sumQ, dq, DqAfter(b, sumQ, before, n));
      EndTile(b, n, sumQ, dq, before);
      ContextPosition(b.a, n);
      AddContext(b, n, base, dkAcc, b.a.scale, dkContext, kBefore, gradK);
      AddContext(b, n, base, dvAcc, 1.0, dvContext, vBefore, gradV);
      base := base + b.a.blockN;
      assert base == (n + 1) * b.a.blockN;
    }
    AllKeys(dkContext, kBefore, gradK, b.a.contextLen, base);
    AllKeys(dvContext, vBefore, gradV, b.a.contextLen, base);
  }

  lemma StartBuffers(b: Backward, sumQ: nat, dq: array2<real>, before: Tensor, buffer: array2<real>, was: Tensor,
      grad: Tensor)
    requires b.a.Valid() && Holds(dq, before) && Holds(buffer, was)
    ensures Holds(dq, DqAfter(b, sumQ, before, 0))
    ensures Holds(buffer, ContextAfter(was, grad, 0))
  {
  }

  lemma AllKeys(buffer: array2<real>, was: Tensor, grad: Tensor, keys: int, base: int)
    requires buffer.Length0 == keys <= base && Holds(buffer, ContextAfter(was, grad, base))
    ensures Holds(buffer, ContextAfter(was, grad, keys))
  {
  }

  /** Decoded gradients of the sequence whose keys start at `sumK`, after `keys` of them; the rest as before. */
  function DecodedAfter(before: Tensor, grad: Tensor, sumK: int, contextLen: int, keys: int): Tensor {
    (x, c) => if sumK <= x < sumK + keys then grad(contextLen + (x - sumK), c) else before(x, c)
  }

  /** The masked store of one decoded tile. */
  method StoreDecoded(b: Backward, n: nat, base: nat, sumK: nat, acc: Tensor, factor: real, buffer: array2<real>,
                      ghost before: Tensor, ghost grad: Tensor)
    requires b.a.Valid() && b.a.BlocksContext() <= n < b.a.BlocksContext() + b.a.BlocksDecoded()
    requires base == (n - b.a.BlocksContext()) * b.a.blockN
    requires sumK + b.a.decodedLen <= buffer.Length0 && buffer.Length1 == b.a.headdim
    requires Holds(buffer, DecodedAfter(before, grad, sumK, b.a.contextLen, base))
    requires forall col, c | 0 <= col < b.a.blockN && b.a.IsKey(n, col) ::
               factor * acc(col, c) == grad(b.a.contextLen + base + col, c)
    modifies buffer
    ensures Holds(buffer, DecodedAfter(before, grad, sumK, b.a.contextLen, Min(base + b.a.blockN, b.a.decodedLen)))
  {
    hide CeilDiv;
    b.a.BlockCounts();
    ProductOrder(n - b.a.BlocksContext(), b.a.BlocksDecoded() - 1, b.a.blockN);
    ghost var was: Tensor := DecodedAfter(before, grad, sumK, b.a.contextLen, base);
    var first := sumK + base;
    forall x, c | first <= x < first + b.a.ValidK(n) && 0 <= c < b.a.headdim {
      buffer[x, c] := factor * acc(x - first, c);
    }
    forall x, c | 0 <= x < buffer.Length0 && 0 <= c < buffer.Length1
      ensures buffer[x, c]
              == DecodedAfter(before, grad, sumK, b.a.contextLen, Min(base + b.a.blockN, b.a.decodedLen))(x, c)
    {
      assert old(buffer[x, c]) == was(x, c);
      if first <= x < first + b.a.ValidK(n) {
        assert b.a.IsKey(n, x - first);
        assert factor * acc(x - first, c) == grad(b.a.contextLen + base + (x - first), c);
      }
    }
  }

  /** One decoded tile: walk its row blocks, then store its key gradients. */
  method DecodedBlock(b: Backward, n: nat, base: nat, sumQ: nat, sumK: nat,
                      dq: array2<real>, dkDecoded: array2<real>, dvDecoded: array2<real>,
                      ghost before: Tensor, ghost kBefore: Tensor, ghost vBefore: Tensor)
    requires b.Launchable() && dq.Length1 == b.a.headdim && sumQ + b.a.seqlenQ <= dq.Length0
    requires dkDecoded.Length0 == dvDecoded.Length0 && sumK + b.a.decodedLen <= dkDecoded.Length0
    requires dkDecoded.Length1 == dvDecoded.Length1 == b.a.headdim
    requires dq != dkDecoded && dq != dvDecoded && dkDecoded != dvDecoded
    requires b.a.BlocksContext() <= n < b.a.BlocksContext() + b.a.BlocksDecoded()
    requires base == (n - b.a.BlocksContext()) * b.a.blockN
    requires Holds(dq, DqAfter(b, sumQ, before, n))
    requires Holds(dkDecoded, DecodedAfter(kBefore, b.a.Reference().GradK(b.dout), sumK, b.a.contextLen, base))
    requires Holds(dvDecoded, DecodedAfter(vBefore, b.a.Reference().GradV(b.dout), sumK, b.a.contextLen, base))
    modifies dq, dkDecoded, dvDecoded
    ensures Holds(dq, DqAfter(b, sumQ, before, n + 1))
    ensures Holds(dkDecoded, DecodedAfter(kBefore, b.a.Reference().GradK(b.dout), sumK, b.a.contextLen,
                                          Min(base + b.a.blockN, b.a.decodedLen)))
    ensures Holds(dvDecoded, DecodedAfter(vBefore, b.a.Reference().GradV(b.dout), sumK, b.a.contextLen,
                                          Min(base + b.a.blockN, b.a.decodedLen)))
  {
    LaunchableIsValid(b);
    hide b.Launchable, b.a.Reference, Holds, DqAfter, DecodedAfter, CeilDiv, Added, b.a.IsKey;
    ghost var gradK, gradV := b.a.Reference().GradK(b.dout), b.a.Reference().GradV(b.dout);
    BeginTile(b, n, sumQ, dq, DqAfter(b, sumQ, before, n));
    var dvAcc, dkAcc := ColBlock(b, n, sumQ, dq, DqAfter(b, sumQ, before, n));
    EndTile(b, n, sumQ, dq, before);
    assert b.a.KeyPos(n) == b.a.contextLen + base;
    StoreDecoded(b, n, base, sumK, dkAcc, b.a.scale, dkDecoded, kBefore, gradK);
    StoreDecoded(b, n, base, sumK, dvAcc, 1.0, dvDecoded, vBefore, gradV);
  }

  /** The decoded tiles of one sequence. */
  method DecodedBlocks(b: Backward, sumQ: nat, sumK: nat, dq: array2<real>, dkDecoded: array2<real>,
      dvDecoded: array2<real>,
                       ghost before: Tensor, ghost kBefore: Tensor, ghost vBefore: Tensor)
    requires b.Launchable() && dq.Length1 == b.a.headdim && sumQ + b.a.seqlenQ <= dq.Length0
    requires dkDecoded.Length0 == dvDecoded.Length0 && sumK + b.a.decodedLen <= dkDecoded.Length0
    requires dkDecoded.Length1 == dvDecoded.Length1 == b.a.headdim
    requires dq != dkDecoded && dq != dvDecoded && dkDecoded != dvDecoded
    requires Holds(dq, DqAfter(b, sumQ, before, b.a.BlocksContext())) && Holds(dkDecoded, kBefore) &&
             Holds(dvDecoded, vBefore)
    modifies dq, dkDecoded, dvDecoded
    ensures Holds(dq, DqAfter(b, sumQ, before, b.a.BlocksContext() + b.a.BlocksDecoded()))
    ensures Holds(dkDecoded, DecodedAfter(kBefore, b.a.Reference().GradK(b.dout), sumK, b.a.contextLen, b.a.decodedLen))
    ensures Holds(dvDecoded, DecodedAfter(vBefore, b.a.Reference().GradV(b.dout), sumK, b.a.contextLen, b.a.decodedLen))
  {
    hide Backward.Launchable, Launch.Reference, CeilDiv, Launch.KeyPos, Added;
    LaunchableIsValid(b);
    ghost var gradK, gradV := b.a.Reference().GradK(b.dout), b.a.Reference().GradV(b.dout);
    assert Holds(dkDecoded, DecodedAfter(kBefore, gradK, sumK, b.a.contextLen, 0));
    assert Holds(dvDecoded, DecodedAfter(vBefore, gradV, sumK, b.a.contextLen, 0));
    b.a.BlockCounts();
    hide b.Launchable, b.a.Reference, Holds, DqAfter, DecodedAfter, CeilDiv;
    var first, end := b.a.BlocksContext(), b.a.BlocksContext() + b.a.BlocksDecoded();
    var base := 0;
    for n := first to end
      invariant base == (n - first) * b.a.blockN
      invariant Holds(dq, DqAfter(b, sumQ, before, n))
      invariant Holds(dkDecoded, DecodedAfter(kBefore, gradK, sumK, b.a.contextLen, Min(base, b.a.decodedLen)))
      invariant Holds(dvDecoded, DecodedAfter(vBefore, gradV, sumK, b.a.contextLen, Min(base, b.a.decodedLen)))
    {
      ProductOrder(n - first, b.a.BlocksDecoded() - 1, b.a.blockN);
      ProductOrder(0, n - first, b.a.blockN);
      DecodedBlock(b, n, base, sumQ, sumK, dq, dkDecoded, dvDecoded, before, kBefore, vBefore);
      base := base + b.a.blockN;
      assert base == (n + 1 - first) * b.a.blockN;
    }
  }

  // ----- The batch ----------------------------------------------------------------------------------

  /** Offsets of the sequences in the packed buffers: `cu[x + 1] - cu[x]` is the length of sequence `x`. */
  ghost predicate Packed(bs: seq<Backward>, cuQ: seq<nat>, cuK: seq<nat>) {
    && |cuQ| == |cuK| == |bs| + 1
    && (forall x | 0 <= x < |bs| :: cuQ[x + 1] == cuQ[x] + bs[x].a.seqlenQ)
    && (forall x | 0 <= x < |bs| :: cuK[x + 1] == cuK[x] + bs[x].a.decodedLen)
  }

  /** All sequences of a batch share the context length and the head dimension. */
  ghost predicate SharedContext(bs: seq<Backward>, contextLen: nat, headdim: nat) {
    forall x | 0 <= x < |bs| :: bs[x].Launchable() && bs[x].a.contextLen == contextLen && bs[x].a.headdim == headdim
  }

  function Zeros2(): Tensor {
    (x, c) => 0.0
  }

  function AllTiles(b: Backward): int
    requires b.a.Valid()
  {
    b.a.BlocksContext() + b.a.BlocksDecoded()
  }

  /** The query gradient accumulator after the first `n` sequences. */
  ghost function BatchDq(bs: seq<Backward>, cuQ: seq<nat>, n: nat): Tensor
    requires n <= |bs| < |cuQ|
    requires forall x | 0 <= x < |bs| :: bs[x].a.Valid()
  {
    if n == 0 then Zeros2() else DqAfter(bs[n - 1], cuQ[n - 1], BatchDq(bs, cuQ, n - 1), AllTiles(bs[n - 1]))
  }

  function Grad(b: Backward, ofKeys: bool): Tensor {
    if ofKeys then b.a.Reference().GradK(b.dout) else b.a.Reference().GradV(b.dout)
  }

  /** The decoded key (or value) gradients after the first `n` sequences, over a buffer that held `was`. */
  ghost function BatchDecoded(bs: seq<Backward>, cuK: seq<nat>, ofKeys: bool, was: Tensor, n: nat): Tensor
    requires n <= |bs| < |cuK|
  {
    if n == 0 then was
    else
      var b := bs[n - 1];
      DecodedAfter(BatchDecoded(bs, cuK, ofKeys, was, n - 1), Grad(b, ofKeys), cuK[n - 1], b.a.contextLen,
          b.a.decodedLen)
  }

  /** The context key (or value) gradients after the first `n` sequences. */
  ghost function BatchContext(bs: seq<Backward>, ofKeys: bool, n: nat): Tensor
    requires n <= |bs|
  {
    if n == 0 then Zeros2()
    else ContextAfter(BatchContext(bs, ofKeys, n - 1), Grad(bs[n - 1], ofKeys), bs[n - 1].a.contextLen)
  }

  function ContextTerms(bs: seq<Backward>, ofKeys: bool, j: int, c: int): Vector {
    x => if 0 <= x < |bs| then Grad(bs[x], ofKeys)(j, c) else 0.0
  }

  /** A context key's gradient is the sum of its gradients in all sequences. */
  lemma {:induction false} ContextIsSum(bs: seq<Backward>, ofKeys: bool, contextLen: nat, n: nat, j: int, c: int)
    requires n <= |bs| && j < contextLen
    requires forall x | 0 <= x < |bs| :: bs[x].a.contextLen == contextLen
    ensures BatchContext(bs, ofKeys, n)(j, c) == Sum(0, n, ContextTerms(bs, ofKeys, j, c))
  {
    hide Grad;
    if n > 0 {
      ContextIsSum(bs, ofKeys, contextLen, n - 1, j, c);
    }
  }

  lemma {:induction false} OffsetsOrdered(bs: seq<Backward>, cuQ: seq<nat>, cuK: seq<nat>, x: nat, y: nat)
    requires Packed(bs, cuQ, cuK) && x < y <= |bs|
    ensures cuQ[x] + bs[x].a.seqlenQ <= cuQ[y] && cuK[x] + bs[x].a.decodedLen <= cuK[y]
    decreases y - x
  {
    if x + 1 < y {
      OffsetsOrdered(bs, cuQ, cuK, x + 1, y);
    }
  }

  /** Later sequences leave the rows of earlier ones alone, and find their own rows still zero. */
  lemma {:induction false} QueryRows(bs: seq<Backward>, cuQ: seq<nat>, cuK: seq<nat>, n: nat, x: nat, i: nat, c: int)
    requires Packed(bs, cuQ, cuK) && n <= |bs| && x < |bs| && i < bs[x].a.seqlenQ
    requires forall y | 0 <= y < |bs| :: bs[y].a.Valid()
    ensures BatchDq(bs, cuQ, n)(cuQ[x] + i, c)
         == if x < n then Sum(0, AllTiles(bs[x]), TileSums(bs[x].a, bs[x].LogicalQueryTerms(i, c))) else 0.0
  {
    hide TileSums, AllTiles;
    if n > 0 {
      QueryRows(bs, cuQ, cuK, n - 1, x, i, c);
      if x < n - 1 {
        OffsetsOrdered(bs, cuQ, cuK, x, n - 1);
      } else if n - 1 < x {
        OffsetsOrdered(bs, cuQ, cuK, n - 1, x);
      } else {
        assert cuQ[x] + i - cuQ[n - 1] == i;
      }
    }
  }

  /** In a finished batch every decoded key holds its gradient in its own sequence. */
  lemma {:induction false} DecodedRows(bs: seq<Backward>, cuQ: seq<nat>, cuK: seq<nat>, ofKeys: bool, was: Tensor,
                                       n: nat, x: nat, j: nat, c: int)
    requires Packed(bs, cuQ, cuK) && x < n <= |bs| && j < bs[x].a.decodedLen
    ensures BatchDecoded(bs, cuK, ofKeys, was, n)(cuK[x] + j, c) == Grad(bs[x], ofKeys)(bs[x].a.contextLen + j, c)
  {
    hide Grad;
    if x < n - 1 {
      DecodedRows(bs, cuQ, cuK, ofKeys, was, n - 1, x, j, c);
      OffsetsOrdered(bs, cuQ, cuK, x, n - 1);
    }
  }

  lemma BatchBegin(bs: seq<Backward>, cuQ: seq<nat>, cuK: seq<nat>, kWas: Tensor, vWas: Tensor)
    requires |cuQ| == |cuK| == |bs| + 1 && forall x | 0 <= x < |bs| :: bs[x].a.Valid()
    ensures BatchDq(bs, cuQ, 0) == BatchContext(bs, true, 0) == BatchContext(bs, false, 0) == Zeros2()
    ensures BatchDecoded(bs, cuK, true, kWas, 0) == kWas && BatchDecoded(bs, cuK, false, vWas, 0) == vWas
  {
  }

  lemma BatchStep(bs: seq<Backward>, cuQ: seq<nat>, cuK: seq<nat>, kWas: Tensor, vWas: Tensor, x: nat)
    requires |cuQ| == |cuK| == |bs| + 1 && x < |bs| && forall y | 0 <= y < |bs| :: bs[y].a.Valid()
    ensures var b, k, v := bs[x], bs[x].a.Reference().GradK(bs[x].dout), bs[x].a.Reference().GradV(bs[x].dout);
            && BatchDq(bs, cuQ, x + 1)
               == DqAfter(b, cuQ[x], BatchDq(bs, cuQ, x), b.a.BlocksContext() + b.a.BlocksDecoded())
            && BatchContext(bs, true, x + 1) == ContextAfter(BatchContext(bs, true, x), k, b.a.contextLen)
            && BatchContext(bs, false, x + 1) == ContextAfter(BatchContext(bs, false, x), v, b.a.contextLen)
            && BatchDecoded(bs, cuK, true, kWas, x + 1)
               == DecodedAfter(BatchDecoded(bs, cuK, true, kWas, x), k, cuK[x], b.a.contextLen, b.a.decodedLen)
            && BatchDecoded(bs, cuK, false, vWas, x + 1)
               == DecodedAfter(BatchDecoded(bs, cuK, false, vWas, x), v, cuK[x], b.a.contextLen, b.a.decodedLen)
  {
    hide DqAfter, ContextAfter, DecodedAfter;
  }

  /**
    The backward pass of a batch: packed query gradients, packed decoded gradients, and one context
    gradient shared by all sequences. The accumulators start at zero; the decoded buffers need not.
   */
  method BwdBatch(bs: seq<Backward>, cuQ: seq<nat>, cuK: seq<nat>, contextLen: nat, headdim: nat,
                  dq: array2<real>, dkContext: array2<real>, dvContext: array2<real>,
                  dkDecoded: array2<real>, dvDecoded: array2<real>, ghost kWas: Tensor, ghost vWas: Tensor)
    requires Packed(bs, cuQ, cuK) && SharedContext(bs, contextLen, headdim)
    requires cuQ[|bs|] <= dq.Length0 && cuK[|bs|] <= dkDecoded.Length0 == dvDecoded.Length0
    requires dkContext.Length0 == dvContext.Length0 == contextLen
    requires dq.Length1 == dkContext.Length1 == dvContext.Length1 == dkDecoded.Length1 == dvDecoded.Length1 == headdim
    requires dq !in {dkContext, dvContext, dkDecoded, dvDecoded} && dkContext !in {dvContext, dkDecoded, dvDecoded}
    requires dvContext !in {dkDecoded, dvDecoded} && dkDecoded != dvDecoded
    requires Holds(dq, Zeros2()) && Holds(dkContext, Zeros2()) && Holds(dvContext, Zeros2())
    requires Holds(dkDecoded, kWas) && Holds(dvDecoded, vWas)
    modifies dq, dkContext, dvContext, dkDecoded, dvDecoded
    ensures Holds(dq, BatchDq(bs, cuQ, |bs|))
    ensures Holds(dkContext, BatchContext(bs, true, |bs|)) && Holds(dvContext, BatchContext(bs, false, |bs|))
    ensures Holds(dkDecoded, BatchDecoded(bs, cuK, true, kWas, |bs|))
    ensures Holds(dvDecoded, BatchDecoded(bs, cuK, false, vWas, |bs|))
  {
    hide Holds, DqAfter, ContextAfter, DecodedAfter, BatchDq, BatchContext, BatchDecoded, AllTiles;
    BatchBegin(bs, cuQ, cuK, kWas, vWas);
    for x := 0 to |bs|
      invariant Holds(dq, BatchDq(bs, cuQ, x))
      invariant Holds(dkContext, BatchContext(bs, true, x)) && Holds(dvContext, BatchContext(bs, false, x))
      invariant Holds(dkDecoded, BatchDecoded(bs, cuK, true, kWas, x))
      invariant Holds(dvDecoded, BatchDecoded(bs, cuK, false, vWas, x))
    {
      var b := bs[x];
      OffsetsOrdered(bs, cuQ, cuK, x, |bs|);
      BatchStep(bs, cuQ, cuK, kWas, vWas, x);
      ContextBlocks(b, cuQ[x], dq, dkContext, dvContext, BatchDq(bs, cuQ, x), BatchContext(bs, true, x),
          BatchContext(bs, false, x));
      DecodedBlocks(b, cuQ[x], cuK[x], dq, dkDecoded, dvDecoded, BatchDq(bs, cuQ, x),
                    BatchDecoded(bs, cuK, true, kWas, x), BatchDecoded(bs, cuK, false, vWas, x));
    }
  }

  /** After the final scaling, every query row of a finished batch holds its reference gradient. */
  lemma QueryGradient(bs: seq<Backward>, cuQ: seq<nat>, cuK: seq<nat>, contextLen: nat, headdim: nat, x: nat, i: nat,
      c: int)
    requires Packed(bs, cuQ, cuK) && SharedContext(bs, contextLen, headdim) && x < |bs| && i < bs[x].a.seqlenQ
    ensures forall y | 0 <= y < |bs| :: bs[y].a.Valid()
    ensures bs[x].a.scale * BatchDq(bs, cuQ, |bs|)(cuQ[x] + i, c) == bs[x].a.Reference().GradQ(bs[x].dout)(i, c)
  {
    hide TileSums, BatchDq, Launch.Reference, Problem.GradQ, Sum;
    QueryRows(bs, cuQ, cuK, |bs|, x, i, c);
    bs[x].QuerySumMatches(i, c);
    var sum := Sum(0, AllTiles(bs[x]), TileSums(bs[x].a, bs[x].LogicalQueryTerms(i, c)));
    assert BatchDq(bs, cuQ, |bs|)(cuQ[x] + i, c) == sum;
    MulCongruence(bs[x].a.scale, BatchDq(bs, cuQ, |bs|)(cuQ[x] + i, c), bs[x].a.scale, sum);
  }
}
