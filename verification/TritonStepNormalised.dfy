/**
  The step-normalised variant: it keeps the running maximum `m` and the running sum `l` apart, divides
  the accumulator by `l` in every iteration, and pre-divides the upstream gradient by `l`.

  It only supports causal attention with whole, square tiles. On that domain it computes the same
  output, log-sum-exp and gradients as the log-sum-exp kernels.
 */
module TritonStepNormalised {
  import opened RealSums
  import opened ExpLogs
  import opened LinearAlgebra
  import opened Attention
  import opened TritonKernel
  import Cxx = CxxArithmetic
  import TritonForward
  import TritonBackward
  import Online = OnlineSoftmax

  /** The launches this variant supports. */
  ghost predicate Supported(p: Kernel) {
    && p.Launchable()
    && p.isCausal && p.biasKind.NoBias?
    && p.blockM == p.blockN && p.headdim == p.blockHeaddim
    && p.seqlenQ == p.seqlenK && p.EvenM()
  }

  datatype RowState = RowState(m: Ext, l: real, acc: Vector)

  function InitialRow(): RowState {
    RowState(NegInf, 0.0, Zeros())
  }

  /** The accumulator rescaled and extended by the rescaled tile. */
  function Mix(acc: Vector, accScale: real, p: Vector, pScale: real, v: Tensor, lo: int, hi: int): Vector {
    c => acc(c) * accScale + Sum(lo, hi, Products(LinearAlgebra.Scaled(pScale, p), Column(v, c)))
  }

  function NextMax(m: Ext, tileMax: Ext): Ext {
    MaxExt(m, tileMax)
  }

  function NextSum(el: ExpLog, s: int -> Ext, st: RowState, tileMax: real, next: real, lo: int, hi: int): real {
    Online.Rescale(el, st.m, next) * st.l
    + el.exp(tileMax - next) * Sum(lo, hi, Online.TileProbs(el, s, tileMax))
  }

  function AccScale(l: real, l': real, alpha: real): real
    requires l' != 0.0
  {
    l / l' * alpha
  }

  function PScale(beta: real, l': real): real
    requires l' != 0.0
  {
    beta / l'
  }

  /** The update for the keys `lo .. hi`, at least one of which must be visible. */
  function Step(el: ExpLog, s: int -> Ext, v: Tensor, st: RowState, lo: int, hi: int): RowState
    requires TileMax(s, lo, hi).Fin?
    requires NextSum(el, s, st, TileMax(s, lo, hi).val, NextMax(st.m, TileMax(s, lo, hi)).val, lo, hi) != 0.0
  {
    var tileMax := TileMax(s, lo, hi).val;
    var next := NextMax(st.m, TileMax(s, lo, hi)).val;
    var l := NextSum(el, s, st, tileMax, next, lo, hi);
    RowState(Fin(next), l,
             Mix(st.acc, AccScale(st.l, l, Online.Rescale(el, st.m, next)),
                 Online.TileProbs(el, s, tileMax), PScale(el.exp(tileMax - next), l), v, lo, hi))
  }

  ghost predicate AccumulatorExact(el: ExpLog, s: int -> Ext, v: Tensor, st: RowState, n: int, c: int) {
    st.acc(c) * (st.l * ExpExt(el, st.m)) == Sum(0, n, Products(Online.Weight(el, s), Column(v, c)))
  }

  ghost predicate SumExact(el: ExpLog, s: int -> Ext, st: RowState, n: int) {
    st.l >= 0.0 && st.l * ExpExt(el, st.m) == Sum(0, n, Online.Weight(el, s))
  }

  ghost predicate Exact(el: ExpLog, s: int -> Ext, v: Tensor, st: RowState, n: int) {
    && SumExact(el, s, st, n)
    && (forall c :: AccumulatorExact(el, s, v, st, n, c))
  }

  /** A tile with a visible key has probabilities summing to at least one. */
  lemma TileSumPositive(el: ExpLog, s: int -> Ext, lo: int, hi: int)
    requires el.Valid() && TileMax(s, lo, hi).Fin?
    ensures Sum(lo, hi, Online.TileProbs(el, s, TileMax(s, lo, hi).val)) >= 1.0
  {
    var top := TileMax(s, lo, hi);
    var p := Online.TileProbs(el, s, top.val);
    forall j | lo <= j < hi ensures p(j) >= 0.0 {
      ExpExtNonNegative(el, SubExt(s(j), top));
    }
    var j :| lo <= j < hi && s(j) == top;
    SumAtLeast(lo, hi, p, j);
  }

  lemma NextSumPositive(el: ExpLog, s: int -> Ext, st: RowState, next: real, lo: int, hi: int)
    requires el.Valid() && st.l >= 0.0 && TileMax(s, lo, hi).Fin?
    ensures NextSum(el, s, st, TileMax(s, lo, hi).val, next, lo, hi) > 0.0
  {
    var tileMax := TileMax(s, lo, hi).val;
    TileSumPositive(el, s, lo, hi);
    ExpExtNonNegative(el, SubExt(st.m, Fin(next)));
    el.Positive(tileMax - next);
    PositiveMix(Online.Rescale(el, st.m, next), st.l, el.exp(tileMax - next),
        Sum(lo, hi, Online.TileProbs(el, s, tileMax)));
  }

  lemma PositiveMix(a: real, l: real, b: real, t: real)
    requires a >= 0.0 && l >= 0.0 && b > 0.0 && t >= 1.0
    ensures a * l + b * t > 0.0
  {
    assert a * l >= 0.0;
    assert b * t >= b * 1.0;
  }

  /** Moving `l` from the old maximum and the tile sum from the tile maximum to the new maximum. */
  lemma SumAlgebra(alpha: real, l: real, beta: real, tile: real, e: real, prev: real, top: real, w: real, wTile: real)
    requires alpha * e == prev && beta * e == top && l * prev == w && top * tile == wTile
    ensures (alpha * l + beta * tile) * e == w + wTile
  {
    MulDistributes(alpha * l, beta * tile, e);
    assert alpha * l * e == l * (alpha * e);
    assert beta * tile * e == (beta * e) * tile;
  }

  lemma SumStep(el: ExpLog, s: int -> Ext, st: RowState, next: real, lo: int, hi: int)
    requires el.Valid() && 0 <= lo <= hi && TileMax(s, lo, hi).Fin? && SumExact(el, s, st, lo)
    ensures NextSum(el, s, st, TileMax(s, lo, hi).val, next, lo, hi) * el.exp(next) == Sum(0, hi, Online.Weight(el, s))
  {
    hide Sum, TileMax, Online.TileProbs;
    var top := TileMax(s, lo, hi).val;
    ShiftExt(el, st.m, Fin(next));
    el.Shift(top, next);
    Online.TileSumShift(el, s, top, lo, hi);
    SumSplit(0, lo, hi, Online.Weight(el, s));
    SumAlgebra(Online.Rescale(el, st.m, next), st.l, el.exp(top - next), Sum(lo, hi, Online.TileProbs(el, s, top)),
               el.exp(next), ExpExt(el, st.m), el.exp(top),
               Sum(0, lo, Online.Weight(el, s)), Sum(lo, hi, Online.Weight(el, s)));
  }

  /** Multiplying back by the new sum undoes the per-step normalisation. */
  lemma MixAlgebra(acc: real, l: real, l': real, alpha: real, beta: real, tile: real, e: real,
                   prev: real, top: real, w: real, wTile: real)
    requires l' != 0.0
    requires alpha * e == prev && beta * e == top && acc * (l * prev) == w && top * tile == wTile
    ensures (acc * (l / l' * alpha) + beta / l' * tile) * (l' * e) == w + wTile
  {
    var x, y := l / l', beta / l';
    assert x * l' == l && y * l' == beta;
    MixBack(acc, x, l', alpha, y, tile, e);
    assert acc * (x * l') * (alpha * e) == acc * (l * prev);
  }

  lemma MixBack(acc: real, x: real, l: real, alpha: real, y: real, tile: real, e: real)
    ensures (acc * (x * alpha) + y * tile) * (l * e) == acc * (x * l) * (alpha * e) + ((y * l) * e) * tile
  {
    var z := l * e;
    MulDistributes(acc * (x * alpha), y * tile, z);
    assert acc * (x * alpha) * z == acc * (x * l) * (alpha * e);
    assert y * tile * z == ((y * l) * e) * tile;
  }

  lemma AccumulatorStep(el: ExpLog, s: int -> Ext, v: Tensor, st: RowState, lo: int, hi: int, c: int)
    requires el.Valid() && 0 <= lo <= hi && TileMax(s, lo, hi).Fin?
    requires AccumulatorExact(el, s, v, st, lo, c)
    requires NextSum(el, s, st, TileMax(s, lo, hi).val, NextMax(st.m, TileMax(s, lo, hi)).val, lo, hi) != 0.0
    ensures AccumulatorExact(el, s, v, Step(el, s, v, st, lo, hi), hi, c)
  {
    hide Sum, TileMax, Online.TileProbs, NextSum, Products, Online.Weight;
    var top := TileMax(s, lo, hi).val;
    var next := NextMax(st.m, TileMax(s, lo, hi)).val;
    var l := NextSum(el, s, st, top, next, lo, hi);
    var p := Online.TileProbs(el, s, top);
    ShiftExt(el, st.m, Fin(next));
    el.Shift(top, next);
    Online.TileValuesShift(el, s, v, top, lo, hi, c);
    SumSplit(0, lo, hi, Products(Online.Weight(el, s), Column(v, c)));
    ScaledTile(el.exp(top - next) / l, p, v, lo, hi, c);
    MixAlgebra(st.acc(c), st.l, l, Online.Rescale(el, st.m, next), el.exp(top - next),
               Sum(lo, hi, Products(p, Column(v, c))), el.exp(next), ExpExt(el, st.m), el.exp(top),
               Sum(0, lo, Products(Online.Weight(el, s), Column(v, c))),
               Sum(lo, hi, Products(Online.Weight(el, s), Column(v, c))));
  }

  lemma ScaledTile(a: real, p: Vector, v: Tensor, lo: int, hi: int, c: int)
    ensures Sum(lo, hi, Products(LinearAlgebra.Scaled(a, p), Column(v, c)))
            == a * Sum(lo, hi, Products(p, Column(v, c)))
  {
    forall j | lo <= j < hi
      ensures Products(LinearAlgebra.Scaled(a, p), Column(v, c))(j) == a * Products(p, Column(v, c))(j)
    {
      MulAssociates(a, p(j), v(j, c));
    }
    SumScale(lo, hi, a, Products(p, Column(v, c)), Products(LinearAlgebra.Scaled(a, p), Column(v, c)));
  }

  lemma StepExact(el: ExpLog, s: int -> Ext, v: Tensor, st: RowState, lo: int, hi: int)
    requires el.Valid() && 0 <= lo <= hi && TileMax(s, lo, hi).Fin? && Exact(el, s, v, st, lo)
    ensures NextSum(el, s, st, TileMax(s, lo, hi).val, NextMax(st.m, TileMax(s, lo, hi)).val, lo, hi) > 0.0
    ensures Exact(el, s, v, Step(el, s, v, st, lo, hi), hi)
  {
    hide Sum, TileMax, Online.TileProbs, NextSum, AccumulatorExact;
    var next := NextMax(st.m, TileMax(s, lo, hi)).val;
    NextSumPositive(el, s, st, next, lo, hi);
    SumStep(el, s, st, next, lo, hi);
    forall c ensures AccumulatorExact(el, s, v, Step(el, s, v, st, lo, hi), hi, c) {
      AccumulatorStep(el, s, v, st, lo, hi, c);
    }
  }

  // ----- Forward ------------------------------------------------------------------------------------

  lemma InitialExact(el: ExpLog, s: int -> Ext, v: Tensor)
    ensures Exact(el, s, v, InitialRow(), 0)
  {
    forall c ensures AccumulatorExact(el, s, v, InitialRow(), 0, c) {
    }
  }

  /** The first key of a tile that starts at or before the row is visible to it. */
  lemma VisibleTile(p: Kernel, i: int, tiles: nat)
    requires Supported(p) && TritonForward.TileStart(p, tiles) <= i < p.seqlenQ
    ensures 0 <= TritonForward.TileStart(p, tiles) <= TritonForward.TileStart(p, tiles + 1)
    ensures TileMax(p.ScaledScores(i), TritonForward.TileStart(p, tiles), TritonForward.TileStart(p, tiles + 1)).Fin?
  {
    TritonForward.TileOrder(p, tiles);
    var first := TritonForward.TileStart(p, tiles);
    assert p.ScaledScores(i)(first).Fin?;
  }

  /** The state of row `i` after `tiles` tiles, none of which starts after the row. */
  function RowAfter(p: Kernel, i: int, tiles: nat): (st: RowState)
    requires Supported(p) && 0 <= i < p.seqlenQ
    requires tiles > 0 ==> TritonForward.TileStart(p, tiles - 1) <= i
    ensures Exact(p.el, p.ScaledScores(i), p.LoadV(), st, TritonForward.TileStart(p, tiles))
  {
    hide Exact, Step, NextSum, p.ScaledScores, p.LoadV;
    if tiles == 0 then
      InitialExact(p.el, p.ScaledScores(i), p.LoadV());
      InitialRow()
    else
      VisibleTile(p, i, tiles - 1);
      TritonForward.TileOrder(p, tiles - 1);
      var lo, hi := TritonForward.TileStart(p, tiles - 1), TritonForward.TileStart(p, tiles);
      EarlierTile(p, tiles - 1);
      var st := RowAfter(p, i, tiles - 1);
      StepExact(p.el, p.ScaledScores(i), p.LoadV(), st, lo, hi);
      Step(p.el, p.ScaledScores(i), p.LoadV(), st, lo, hi)
  }

  lemma EarlierTile(p: Kernel, tiles: nat)
    ensures TritonForward.TileStart(p, tiles - 1) <= TritonForward.TileStart(p, tiles)
  {
  }

  /** The keys visited for a row block end with that row block, within the keys. */
  lemma BlocksWithinKeys(p: Kernel, startM: nat, i: int)
    requires Supported(p) && startM * p.blockM <= i < p.seqlenQ
    ensures TritonForward.TileStart(p, startM + 1) == (startM + 1) * p.blockM <= p.seqlenK
    ensures TritonForward.EndN(p, startM) == TritonForward.TileStart(p, startM + 1)
    ensures TritonForward.TileStart(p, startM) <= i
  {
    p.EvenTilesEnd(startM + 1);
  }

  /** A finished row: the accumulator is already the output, and `m + log l` is the log-sum-exp. */
  lemma FinishedRow(p: Kernel, startM: nat, i: int)
    requires Supported(p) && startM * p.blockM <= i < (startM + 1) * p.blockM && i < p.seqlenQ
    requires TritonForward.TileStart(p, startM) <= i
    ensures var st := RowAfter(p, i, startM + 1);
            && st.m.Fin? && st.l > 0.0
            && st.l * p.el.exp(st.m.val) == p.Reference().Denominator(i)
            && st.m.val + p.el.log(st.l) == p.Reference().Lse(i)
            && forall c | 0 <= c < p.headdim :: st.acc(c) == p.Reference().Output(i, c)
  {
    hide p.ScaledScores, p.LoadV, Sum, Inner, RowAfter;
    var a, st, n := p.Reference(), RowAfter(p, i, startM + 1), TritonForward.TileStart(p, startM + 1);
    BlocksWithinKeys(p, startM, i);
    TritonForward.DenominatorMatches(p, startM, i, startM + 1);
    p.RowHasKey(i);
    a.DenominatorPositive(i);
    PositiveFactors(p.el, st.l, st.m, a.Denominator(i));
    p.el.Sum(st.m.val, p.el.log(st.l));
    p.el.ExpOfLog(st.l);
    assert p.el.exp(st.m.val + p.el.log(st.l)) == a.Denominator(i);
    p.el.LogOfExp(st.m.val + p.el.log(st.l));
    forall c | 0 <= c < p.headdim ensures st.acc(c) == a.Output(i, c) {
      TritonForward.NumeratorMatches(p, startM, i, startM + 1, c);
      assert AccumulatorExact(p.el, p.ScaledScores(i), p.LoadV(), st, n, c);
      a.OutputFromWeights(i, c);
      Quotient(st.acc(c), a.Denominator(i), Inner(a.seqlenK, a.Weights(i), Column(a.v, c)));
    }
  }

  /** The running maximum is the maximum of the scores seen. */
  lemma {:induction false} RowMaximum(p: Kernel, i: int, tiles: nat)
    requires Supported(p) && 0 <= i < p.seqlenQ
    requires tiles > 0 ==> TritonForward.TileStart(p, tiles - 1) <= i
    ensures RowAfter(p, i, tiles).m == TileMax(p.ScaledScores(i), 0, TritonForward.TileStart(p, tiles))
  {
    hide Exact, NextSum, Mix, p.ScaledScores, p.LoadV, TileMax, MaxExt;
    if tiles > 0 {
      EarlierTile(p, tiles - 1);
      TritonForward.TileOrder(p, tiles - 1);
      RowMaximum(p, i, tiles - 1);
      VisibleTile(p, i, tiles - 1);
      TileMaxSplit(p.ScaledScores(i), 0, TritonForward.TileStart(p, tiles - 1), TritonForward.TileStart(p, tiles));
    } else {
      EmptyMaximum(p.ScaledScores(i));
    }
  }

  lemma EmptyMaximum(s: int -> Ext)
    ensures TileMax(s, 0, 0) == NegInf
  {
  }

  /** In a finished row it is the largest score of the keys that the row sees. */
  lemma FinishedMaximum(p: Kernel, startM: nat, i: int)
    requires Supported(p) && startM * p.blockM <= i < (startM + 1) * p.blockM && i < p.seqlenQ
    requires TritonForward.TileStart(p, startM) <= i && RowAfter(p, i, startM + 1).m.Fin?
    ensures forall j | 0 <= j <= i :: p.Reference().Score(i, j) <= RowAfter(p, i, startM + 1).m.val
    ensures exists j :: 0 <= j <= i && p.Reference().Score(i, j) == RowAfter(p, i, startM + 1).m.val
  {
    hide RowAfter, Kernel.ScaledScores, Kernel.Reference, TritonForward.TileStart, Problem.Score;
    RowMaximum(p, i, startM + 1);
    VisibleScores(p, startM, i);
    MaximumAmong(p.ScaledScores(i), TritonForward.TileStart(p, startM + 1), j => p.Reference().Score(i, j), i);
  }

  lemma VisibleScores(p: Kernel, startM: nat, i: int)
    requires Supported(p) && startM * p.blockM <= i < (startM + 1) * p.blockM && i < p.seqlenQ
    ensures i < TritonForward.TileStart(p, startM + 1)
    ensures forall j | 0 <= j < TritonForward.TileStart(p, startM + 1) ::
              p.ScaledScores(i)(j) == if j <= i then Fin(p.Reference().Score(i, j)) else NegInf
  {
    BlocksWithinKeys(p, startM, i);
    hide Kernel.ScaledScores, Kernel.Reference, Problem.Score, TritonForward.EndN, TritonForward.TileStart;
    forall j | 0 <= j < TritonForward.TileStart(p, startM + 1)
      ensures p.ScaledScores(i)(j) == if j <= i then Fin(p.Reference().Score(i, j)) else NegInf
    {
      p.ScoreMatches(i, j);
    }
  }

  lemma MaximumAmong(s: int -> Ext, n: int, score: int -> real, i: int)
    requires 0 <= i < n && TileMax(s, 0, n).Fin?
    requires forall j | 0 <= j < n :: s(j) == if j <= i then Fin(score(j)) else NegInf
    ensures forall j | 0 <= j <= i :: score(j) <= TileMax(s, 0, n).val
    ensures exists j :: 0 <= j <= i && score(j) == TileMax(s, 0, n).val
  {
    var top := TileMax(s, 0, n);
    forall j | 0 <= j <= i ensures score(j) <= top.val {
      assert LeqExt(s(j), top);
    }
    var j :| 0 <= j < n && s(j) == top;
    assert score(j) == top.val;
  }

  lemma PositiveFactors(el: ExpLog, l: real, m: Ext, product: real)
    requires el.Valid() && l >= 0.0 && l * ExpExt(el, m) == product && product > 0.0
    ensures m.Fin? && l > 0.0
  {
    var e := ExpExt(el, m);
    assert e == 0.0 ==> l * e == 0.0;
    assert l == 0.0 ==> l * e == 0.0;
  }

  lemma NextSumForm(el: ExpLog, s: int -> Ext, m: Ext, l: real, acc: Vector, tileMax: real, next: real, lo: int,
      hi: int)
    ensures NextSum(el, s, RowState(m, l, acc), tileMax, next, lo, hi)
         == ExpExt(el, SubExt(m, Fin(next))) * l
            + el.exp(tileMax - next) * Sum(lo, hi, Online.TileProbs(el, s, tileMax))
  {
  }

  /** One iteration of the key loop. */
  method FwdTile(p: Kernel, i: int, lo: int, hi: int, mI: Ext, lI: real, acc: Vector)
    returns (mINew: Ext, lINew: real, acc': Vector)
    requires p.Launchable() && TileMax(p.ScaledScores(i), lo, hi).Fin?
    requires var top := TileMax(p.ScaledScores(i), lo, hi);
             NextSum(p.el, p.ScaledScores(i), RowState(mI, lI, acc), top.val, NextMax(mI, top).val, lo, hi) > 0.0
    ensures RowState(mINew, lINew, acc') == Step(p.el, p.ScaledScores(i), p.LoadV(), RowState(mI, lI, acc), lo, hi)
  {
    hide Mix, AccScale, PScale, TileMax, Sum, Online.TileProbs, p.ScaledScores, p.LoadV;
    var mIJ := TileMax(p.ScaledScores(i), lo, hi);
    var probs := Online.TileProbs(p.el, p.ScaledScores(i), mIJ.val);
    var lIJ := Sum(lo, hi, probs);
    mINew := MaxExt(mI, mIJ);
    NextSumForm(p.el, p.ScaledScores(i), mI, lI, acc, mIJ.val, mINew.val, lo, hi);
    hide NextSum;
    var alpha := ExpExt(p.el, SubExt(mI, mINew));
    var beta := p.el.exp(mIJ.val - mINew.val);
    lINew := alpha * lI + beta * lIJ;
    assert lINew == NextSum(p.el, p.ScaledScores(i), RowState(mI, lI, acc), mIJ.val, mINew.val, lo, hi);
    acc' := Mix(acc, AccScale(lI, lINew, alpha), probs, PScale(beta, lINew), p.LoadV(), lo, hi);
  }

  /** Row `r` of program `startM`. */
  method FwdRow(p: Kernel, startM: nat, r: nat) returns (l: real, m: real, o: Vector)
    requires Supported(p) && r < p.blockM && startM * p.blockM + r < p.seqlenQ
    ensures var i := startM * p.blockM + r;
            && l > 0.0
            && l * p.el.exp(m) == p.Reference().Denominator(i)
            && m + p.el.log(l) == p.Reference().Lse(i)
            && (forall j | 0 <= j <= i :: p.Reference().Score(i, j) <= m)
            && (exists j :: 0 <= j <= i && p.Reference().Score(i, j) == m)
            && forall c | 0 <= c < p.headdim :: o(c) == p.Reference().Output(i, c)
  {
    hide p.Reference, Exact, NextSum, Mix, TileMax, Sum, Step, p.ScaledScores, p.LoadV;
    var i := startM * p.blockM + r;
    TritonForward.RowInBlock(p, startM, r);
    BlocksWithinKeys(p, startM, i);
    var mI: Ext := NegInf;
    var lI := 0.0;
    var acc := Zeros();
    var startN := 0;
    ghost var tiles: nat := 0;
    while startN < (startM + 1) * p.blockM
      invariant startN == TritonForward.TileStart(p, tiles) && tiles <= startM + 1
      invariant tiles > 0 ==> TritonForward.TileStart(p, tiles - 1) <= i
      invariant RowState(mI, lI, acc) == RowAfter(p, i, tiles)
      decreases startM + 1 - tiles
    {
      Cxx.ProductOrder(tiles, startM + 1, p.blockM);
      Cxx.ProductOrder(tiles, startM, p.blockM);
      VisibleTile(p, i, tiles);
      TritonForward.TileOrder(p, tiles);
      var hi := startN + p.blockN;
      StepExact(p.el, p.ScaledScores(i), p.LoadV(), RowAfter(p, i, tiles), startN, hi);
      mI, lI, acc := FwdTile(p, i, startN, hi, mI, lI, acc);
      startN := hi;
      tiles := tiles + 1;
    }
    Cxx.ProductOrder(tiles, startM + 1, p.blockM);
    FinishedRow(p, startM, i);
    FinishedMaximum(p, startM, i);
    l, m, o := lI, mI.val, acc;
  }

  /** On the supported domain the two forward kernels agree row by row. */
  method ForwardsAgree(p: Kernel, startM: nat, r: nat)
    returns (l: real, m: real, stepwise: Vector, lse: real, o: Vector)
    requires Supported(p) && r < p.blockM && startM * p.blockM + r < p.seqlenQ
    ensures l > 0.0 && lse == m + p.el.log(l)
    ensures Agree(p.headdim, stepwise, o)
  {
    hide p.Reference;
    l, m, stepwise := FwdRow(p, startM, r);
    lse, o := TritonForward.FwdRow(p, startM, r);
  }

  // ----- Backward -----------------------------------------------------------------------------------

  /** The backward launch: the row buffers hold `l`, `m`, and what the preprocess kernel computes from `l`. */
  datatype Backward = Backward(p: Kernel, dout: Tensor, l: Vector, m: Vector, newDout: Tensor, delta: Vector) {

    ghost predicate Launchable() {
      && Supported(p)
      && (forall i | 0 <= i < p.seqlenQ :: RowBuffers(i))
    }

    ghost predicate RowBuffers(i: int) {
      && l(i) > 0.0
      && l(i) * p.el.exp(m(i)) == p.Reference().Denominator(i)
      && (forall c | 0 <= c < p.headdim :: newDout(i, c) == dout(i, c) / l(i))
      && delta(i) == Inner(p.headdim, Row(newDout, i), p.Reference().OutputRow(i))
    }

    /** The same launch as the log-sum-exp kernel would see it. */
    function Plain(): TritonBackward.Backward {
      TritonBackward.Backward(p, dout, i => p.Reference().Lse(i),
        i => if i < p.seqlenQ then p.Reference().Delta(dout, i) else 0.0)
    }

    function ScaledScore(i: int, j: int): Ext
      requires Supported(p)
    {
      if i >= j then Fin(Inner(p.headdim, Row(p.q, i), Row(p.k, j)) * p.softmaxScale) else NegInf
    }

    /** The probability before division by `l`. */
    function RawProb(i: int, j: int): real
      requires Supported(p)
    {
      ExpExt(p.el, SubExt(ScaledScore(i, j), Fin(m(i))))
    }

    function RawScoreGrad(i: int, j: int): real
      requires Supported(p)
    {
      RawProb(i, j) * (-delta(i) + Inner(p.headdim, Row(newDout, i), Row(p.v, j))) * p.softmaxScale
    }

    function ValueTerms(j: int, c: int): Vector
      requires Supported(p)
    {
      i => RawProb(i, j) * newDout(i, c)
    }

    function KeyTerms(j: int, c: int): Vector
      requires Supported(p)
    {
      i => RawScoreGrad(i, j) * p.q(i, c)
    }

    function QueryTerms(i: int, c: int): Vector
      requires Supported(p)
    {
      j => RawScoreGrad(i, j) * p.k(j, c)
    }

    lemma ScoreMatches(i: int, j: int)
      requires Supported(p) && 0 <= j < p.seqlenK
      ensures ExpExt(p.el, ScaledScore(i, j)) == p.Reference().Weight(i, j)
    {
      hide Inner;
      var a := p.Reference();
      assert a.bias(i, j) == 0.0 && (a.allowed(i, j) <==> i >= j);
      var x := Inner(p.headdim, Row(p.q, i), Row(p.k, j)) * p.softmaxScale;
      assert a.Score(i, j) == x;
      assert a.Weight(i, j) == if i >= j then p.el.exp(x) else 0.0;
      assert ScaledScore(i, j) == if i >= j then Fin(x) else NegInf;
    }

    /** The raw probability is the probability times `l`. */
    lemma RawProbMatches(i: int, j: int)
      requires Launchable() && 0 <= i < p.seqlenQ && 0 <= j < p.seqlenK
      ensures RawProb(i, j) == p.Reference().Prob(i, j) * l(i)
    {
      var a := p.Reference();
      assert RowBuffers(i);
      ShiftExt(p.el, ScaledScore(i, j), Fin(m(i)));
      p.el.Positive(m(i));
      p.RowHasKey(i);
      a.DenominatorPositive(i);
      ScoreMatches(i, j);
      hide Inner, ScaledScore;
      RawAlgebra(RawProb(i, j), l(i), p.el.exp(m(i)), a.Weight(i, j), a.Denominator(i));
    }

    /** Dividing the upstream gradient by `l` divides its inner products by `l`. */
    lemma DividedInner(i: int, y: Vector)
      requires Launchable() && 0 <= i < p.seqlenQ
      ensures l(i) * Inner(p.headdim, Row(newDout, i), y) == Inner(p.headdim, Row(dout, i), y)
    {
      assert RowBuffers(i);
      forall c | 0 <= c < p.headdim ensures Row(dout, i)(c) == LinearAlgebra.Scaled(l(i), Row(newDout, i))(c) {
      }
      hide Inner, LinearAlgebra.Scaled;
      InnerCongruence(p.headdim, Row(dout, i), y, LinearAlgebra.Scaled(l(i), Row(newDout, i)), y);
      InnerScaled(p.headdim, l(i), Row(newDout, i), y);
    }

    lemma RawScoreGradMatches(i: int, j: int)
      requires Launchable() && 0 <= i < p.seqlenQ && 0 <= j < p.seqlenK
      ensures RawScoreGrad(i, j) == p.softmaxScale * p.Reference().ScoreGrad(dout, i, j)
    {
      hide Launchable, Inner, RawProb, Kernel.Reference, Problem.OutputRow, Problem.Prob, Problem.ScoreGrad;
      var a := p.Reference();
      BuffersOf(i);
      RawProbMatches(i, j);
      DividedInner(i, Row(p.v, j));
      DividedInner(i, a.OutputRow(i));
      a.ScoreGradFromDelta(dout, i, j);
      var dp, dp' := Inner(p.headdim, Row(newDout, i), Row(p.v, j)), Inner(p.headdim, Row(dout, i), Row(p.v, j));
      var grad := a.ScoreGrad(dout, i, j);
      GradAlgebra(RawProb(i, j), a.Prob(i, j), l(i), dp, delta(i), dp', a.Delta(dout, i), p.softmaxScale, grad);
    }

    lemma BuffersOf(i: int)
      requires Launchable() && 0 <= i < p.seqlenQ
      ensures Supported(p) && l(i) > 0.0 && forall c | 0 <= c < p.headdim :: newDout(i, c) == dout(i, c) / l(i)
      ensures delta(i) == Inner(p.headdim, Row(newDout, i), p.Reference().OutputRow(i))
      ensures p.Reference().headdim == p.headdim && p.Reference().seqlenK == p.seqlenK && p.Reference().v == p.v
    {
      assert RowBuffers(i);
    }

    lemma PlainLaunchable()
      requires Launchable()
      ensures Plain().Launchable()
    {
    }

    lemma ValueTermsMatch(i: int, j: int, c: int)
      requires Launchable() && 0 <= i < p.seqlenQ && 0 <= j < p.seqlenK && 0 <= c < p.headdim
      ensures ValueTerms(j, c)(i) == TritonBackward.ValueTerms(Plain(), j, c)(i)
    {
      hide Launchable, RawProb, Kernel.Reference, Problem.Prob, TritonBackward.Backward.Prob,
           TritonBackward.Backward.LoadRow;
      var b := Plain();
      PlainLaunchable();
      TritonBackward.KernelLaunchable(b);
      BuffersOf(i);
      RawProbMatches(i, j);
      b.ProbMatches(i, j);
      b.LoadedRow(dout, i, c);
      assert b.LoadDout()(i, c) == dout(i, c);
      Undivide(RawProb(i, j), p.Reference().Prob(i, j), l(i), newDout(i, c), dout(i, c));
      MulCongruence(b.Prob(i, j), b.LoadDout()(i, c), p.Reference().Prob(i, j), dout(i, c));
      assert TritonBackward.ValueTerms(b, j, c)(i) == b.Prob(i, j) * b.LoadDout()(i, c);
    }

    lemma ScoreGradsAgree(i: int, j: int)
      requires Launchable() && 0 <= i < p.seqlenQ && 0 <= j < p.seqlenK
      ensures RawScoreGrad(i, j) == Plain().ScaledScoreGrad(i, j)
    {
      PlainLaunchable();
      RawScoreGradMatches(i, j);
      hide RawScoreGrad;
      Plain().ScoreGradMatches(i, j);
    }

    lemma KeyTermsMatch(i: int, j: int, c: int)
      requires Launchable() && 0 <= i < p.seqlenQ && 0 <= j < p.seqlenK && 0 <= c < p.headdim
      ensures KeyTerms(j, c)(i) == TritonBackward.KeyTerms(Plain(), j, c)(i)
      ensures QueryTerms(i, c)(j) == TritonBackward.QueryTerms(Plain(), i, c)(j)
    {
      hide RawScoreGrad;
      ScoreGradsAgree(i, j);
      Plain().LoadedRow(p.q, i, c);
      Plain().LoadedKey(j, c);
      assert Plain().LoadQ()(i, c) == p.q(i, c);
      assert Plain().GradsOfKey(j)(i) == Plain().ScaledScoreGrad(i, j) == Plain().GradsOfQuery(i)(j);
    }
  }

  lemma RawAlgebra(raw: real, l: real, e: real, w: real, den: real)
    requires e > 0.0 && den > 0.0 && raw * e == w && l * e == den
    ensures raw == w / den * l
  {
    assert w / den * l * e == w / den * (l * e);
    assert w / den * den == w;
    Cancel(raw, w / den * l, e);
  }

  lemma Cancel(x: real, y: real, e: real)
    requires e > 0.0 && x * e == y * e
    ensures x == y
  {
    assert (x - y) * e == 0.0;
  }

  /** Dividing the upstream gradient by `l` and leaving `l` in the probability cancel. */
  lemma GradAlgebra(raw: real, prob: real, l: real, dp: real, delta: real, dp': real, delta': real, scale: real,
      grad: real)
    requires raw == prob * l && l * dp == dp' && l * delta == delta'
    requires grad == prob * (dp' - delta')
    ensures raw * (-delta + dp) * scale == scale * grad
  {
    var x := -delta + dp;
    assert l * x == dp' - delta';
    MulAssociates(prob, l, x);
    assert raw * x == grad;
  }

  lemma Undivide(raw: real, prob: real, l: real, x: real, y: real)
    requires l != 0.0 && raw == prob * l && x == y / l
    ensures raw * x == prob * y
  {
    assert l * x == y;
    MulAssociates(prob, l, x);
  }

  /** The upstream gradient divided row by row by `l`. */
  function Divided(dout: Tensor, l: Vector): Tensor {
    (i, c) => if l(i) == 0.0 then 0.0 else dout(i, c) / l(i)
  }

  /**
    The preprocess kernel: divide the upstream gradient by `l`, then take row sums of the output times
    the quotient.
   */
  method BwdPreprocess(p: Kernel, o: Tensor, dout: Tensor, l: Vector, newDout: array2<real>, deltas: array<real>)
    requires Supported(p)
    requires forall i | 0 <= i < p.seqlenQ :: l(i) > 0.0
    requires forall i, c | 0 <= i < p.seqlenQ && 0 <= c < p.headdim :: o(i, c) == p.Reference().Output(i, c)
    requires newDout.Length0 == deltas.Length == p.seqlenQ && newDout.Length1 == p.headdim
    modifies newDout, deltas
    ensures forall i, c | 0 <= i < p.seqlenQ && 0 <= c < p.headdim :: newDout[i, c] == Divided(dout, l)(i, c)
    ensures forall i | 0 <= i < p.seqlenQ ::
              deltas[i] == Inner(p.headdim, Row(Divided(dout, l), i), p.Reference().OutputRow(i))
  {
    hide p.Reference, Inner;
    forall i, c | 0 <= i < p.seqlenQ && 0 <= c < p.headdim {
      newDout[i, c] := Divided(dout, l)(i, c);
    }
    hide Divided;
    for i := 0 to p.seqlenQ
      invariant forall i', c | 0 <= i' < p.seqlenQ && 0 <= c < p.headdim :: newDout[i', c] == Divided(dout, l)(i', c)
      invariant forall i' | 0 <= i' < i ::
                  deltas[i'] == Inner(p.headdim, Row(Divided(dout, l), i'), p.Reference().OutputRow(i'))
    {
      deltas[i] := Inner(p.headdim, Row(Divided(dout, l), i), Row(o, i));
      InnerCongruence(p.headdim, Row(Divided(dout, l), i), Row(o, i), Row(Divided(dout, l), i),
          p.Reference().OutputRow(i));
    }
  }

  lemma SquareTiles(p: Kernel, startN: nat)
    requires Supported(p) && startN < TritonBackward.NumBlockN(p)
    ensures TritonBackward.BeginM(p, startN) == startN * p.blockN
    ensures TritonBackward.EndM(p) == p.seqlenQ
    ensures startN * p.blockN < (startN + 1) * p.blockN <= p.seqlenK
  {
    Cxx.QuotientUnique(startN * p.blockN, startN, 0, p.blockM);
    TritonBackward.EvenRowsEnd(p);
    Cxx.ProductOrder(startN + 1, TritonBackward.NumBlockN(p), p.blockN);
  }

  lemma SameContribution(b: Backward, startN: nat, i: int, c: int)
    requires b.Launchable() && startN < TritonBackward.NumBlockN(b.p) && 0 <= i < b.p.seqlenQ && 0 <= c < b.p.headdim
    ensures Sum(startN * b.p.blockN, (startN + 1) * b.p.blockN, b.QueryTerms(i, c))
         == TritonBackward.BlockContribution(b.Plain(), startN, i, c)
  {
    SquareTiles(b.p, startN);
    assert startN * b.p.blockN >= 0;
    var lo, hi := startN * b.p.blockN, (startN + 1) * b.p.blockN;
    forall j | lo <= j < hi
      ensures b.QueryTerms(i, c)(j) == TritonBackward.QueryTerms(b.Plain(), i, c)(j)
    {
      b.KeyTermsMatch(i, j, c);
    }
    SumCongruence(lo, hi, b.QueryTerms(i, c), TritonBackward.QueryTerms(b.Plain(), i, c));
  }

  /** Row sums over the visited rows of a key equal those of the log-sum-exp kernel. */
  lemma SameRowSums(b: Backward, startN: nat, j: int, c: int)
    requires b.Launchable() && startN < TritonBackward.NumBlockN(b.p)
    requires startN * b.p.blockN <= j < b.p.seqlenK && 0 <= c < b.p.headdim
    ensures Sum(startN * b.p.blockN, b.p.seqlenQ, b.ValueTerms(j, c))
         == Sum(startN * b.p.blockN, b.p.seqlenQ, TritonBackward.ValueTerms(b.Plain(), j, c))
    ensures Sum(startN * b.p.blockN, b.p.seqlenQ, b.KeyTerms(j, c))
         == Sum(startN * b.p.blockN, b.p.seqlenQ, TritonBackward.KeyTerms(b.Plain(), j, c))
  {
    var lo, n := startN * b.p.blockN, b.p.seqlenQ;
    assert lo >= 0;
    forall i | lo <= i < n
      ensures b.ValueTerms(j, c)(i) == TritonBackward.ValueTerms(b.Plain(), j, c)(i)
      ensures b.KeyTerms(j, c)(i) == TritonBackward.KeyTerms(b.Plain(), j, c)(i)
    {
      b.ValueTermsMatch(i, j, c);
      b.KeyTermsMatch(i, j, c);
    }
    hide b.ValueTerms, b.KeyTerms, TritonBackward.ValueTerms, TritonBackward.KeyTerms;
    SumCongruence(lo, n, b.ValueTerms(j, c), TritonBackward.ValueTerms(b.Plain(), j, c));
    SumCongruence(lo, n, b.KeyTerms(j, c), TritonBackward.KeyTerms(b.Plain(), j, c));
  }

  /** The accumulators of a finished column block are the reference gradients of its keys. */
  lemma FinishedKey(b: Backward, startN: nat, j: int, c: int)
    requires b.Launchable() && startN < TritonBackward.NumBlockN(b.p)
    requires startN * b.p.blockN <= j < b.p.seqlenK && 0 <= c < b.p.headdim
    ensures Sum(startN * b.p.blockN, b.p.seqlenQ, b.ValueTerms(j, c)) == b.p.Reference().GradV(b.dout)(j, c)
    ensures Sum(startN * b.p.blockN, b.p.seqlenQ, b.KeyTerms(j, c)) == b.p.Reference().GradK(b.dout)(j, c)
  {
    SameRowSums(b, startN, j, c);
    SquareTiles(b.p, startN);
    b.PlainLaunchable();
    var plain := b.Plain();
    hide b.Launchable, b.Plain, b.p.Reference, b.ValueTerms, b.KeyTerms, plain.Launchable, TritonBackward.BeginM;
    TritonBackward.ValueTermsVanish(plain, startN, j, c);
    TritonBackward.KeyTermsVanish(plain, startN, j, c);
    TritonBackward.SumOverRows(b.p, startN, TritonBackward.ValueTerms(plain, j, c));
    TritonBackward.SumOverRows(b.p, startN, TritonBackward.KeyTerms(plain, j, c));
    TritonBackward.ValueSumMatches(plain, j, c);
    TritonBackward.KeySumMatches(plain, j, c);
  }

  /** The tile accumulators hold the sums over the rows from `lo` to `startM`. */
  ghost predicate Accumulated(b: Backward, dv: Tensor, dk: Tensor, lo: int, startM: int)
    requires Supported(b.p)
  {
    forall j, c :: dv(j, c) == Sum(lo, startM, b.ValueTerms(j, c)) && dk(j, c) == Sum(lo, startM, b.KeyTerms(j, c))
  }

  function AddValues(b: Backward, acc: Tensor, lo: int, hi: int): Tensor
    requires Supported(b.p)
  {
    (j, c) => acc(j, c) + Sum(lo, hi, b.ValueTerms(j, c))
  }

  function AddKeys(b: Backward, acc: Tensor, lo: int, hi: int): Tensor
    requires Supported(b.p)
  {
    (j, c) => acc(j, c) + Sum(lo, hi, b.KeyTerms(j, c))
  }

  lemma AccumulateTile(b: Backward, dv: Tensor, dk: Tensor, begin: int, lo: int, hi: int)
    requires Supported(b.p) && Accumulated(b, dv, dk, begin, lo) && begin <= lo <= hi
    ensures Accumulated(b, AddValues(b, dv, lo, hi), AddKeys(b, dk, lo, hi), begin, hi)
  {
    forall j, c
      ensures AddValues(b, dv, lo, hi)(j, c) == Sum(begin, hi, b.ValueTerms(j, c))
      ensures AddKeys(b, dk, lo, hi)(j, c) == Sum(begin, hi, b.KeyTerms(j, c))
    {
      SumSplit(begin, lo, hi, b.ValueTerms(j, c));
      SumSplit(begin, lo, hi, b.KeyTerms(j, c));
    }
  }

  /** The read-modify-write of one dq tile. */
  method AddDqTile(b: Backward, startN: nat, startM: nat, dq: array2<real>, ghost before: Tensor)
    requires b.Launchable() && startN < TritonBackward.NumBlockN(b.p)
    requires dq.Length0 == b.p.seqlenQ && dq.Length1 == b.p.headdim
    requires TritonBackward.Added(b.Plain(), startN, dq, before, startM)
    modifies dq
    ensures TritonBackward.Added(b.Plain(), startN, dq, before, startM + b.p.blockM)
  {
    assert Supported(b.p);
    hide b.Launchable, TritonBackward.BlockContribution, b.QueryTerms;
    forall i, c | startM <= i < startM + b.p.blockM && i < b.p.seqlenQ && 0 <= c < b.p.headdim {
      dq[i, c] := dq[i, c] + Sum(startN * b.p.blockN, (startN + 1) * b.p.blockN, b.QueryTerms(i, c));
    }
    forall i, c | startM <= i < startM + b.p.blockM && i < b.p.seqlenQ && 0 <= c < b.p.headdim
      ensures Sum(startN * b.p.blockN, (startN + 1) * b.p.blockN, b.QueryTerms(i, c))
           == TritonBackward.BlockContribution(b.Plain(), startN, i, c)
    {
      SameContribution(b, startN, i, c);
    }
  }

  lemma NextRows(mBlock: nat, blocks: nat, size: nat)
    requires size > 0 && mBlock * size < blocks * size
    ensures mBlock < blocks && mBlock * size + size == (mBlock + 1) * size <= blocks * size
  {
    Cxx.ProductOrder(mBlock, blocks, size);
    Cxx.ProductOrder(mBlock + 1, blocks, size);
  }

  /** The loop over row blocks at and below column block `startN`. */
  method AccumulateRows(b: Backward, startN: nat, lo: nat, dq: array2<real>, ghost before: Tensor)
    returns (dv: Tensor, dk: Tensor)
    requires b.Launchable() && startN < TritonBackward.NumBlockN(b.p) && lo == startN * b.p.blockM
    requires dq.Length0 == b.p.seqlenQ && dq.Length1 == b.p.headdim
    requires TritonBackward.Added(b.Plain(), startN, dq, before, lo)
    modifies dq
    ensures TritonBackward.Added(b.Plain(), startN, dq, before, b.p.seqlenQ)
    ensures Accumulated(b, dv, dk, lo, b.p.seqlenQ)
  {
    SquareTiles(b.p, startN);
    b.PlainLaunchable();
    dv := (j, c) => 0.0;
    dk := (j, c) => 0.0;
    assert Accumulated(b, dv, dk, lo, lo);
    hide b.Launchable, b.Plain, Accumulated, AddValues, AddKeys, TritonBackward.Added, TritonBackward.BeginM;
    var numBlock := Cdiv(b.p.seqlenQ, b.p.blockM);
    assert numBlock * b.p.blockM == b.p.seqlenQ;
    var startM := lo;
    ghost var mBlock: nat := startN;
    while startM < numBlock * b.p.blockM
      invariant startM == mBlock * b.p.blockM && lo <= startM <= b.p.seqlenQ
      invariant TritonBackward.Added(b.Plain(), startN, dq, before, startM)
      invariant Accumulated(b, dv, dk, lo, startM)
      decreases b.p.seqlenQ - startM
    {
      var next := startM + b.p.blockM;
      NextRows(mBlock, numBlock, b.p.blockM);
      AccumulateTile(b, dv, dk, lo, startM, next);
      dv := AddValues(b, dv, startM, next);
      dk := AddKeys(b, dk, startM, next);
      AddDqTile(b, startN, startM, dq, before);
      startM := next;
      mBlock := mBlock + 1;
    }
  }

  /** One column block: accumulate, then store the key gradients. */
  method BwdColBlock(b: Backward, startN: nat, lo: nat, dq: array2<real>, dk: array2<real>, dv: array2<real>,
      ghost before: Tensor)
    requires b.Launchable() && startN < TritonBackward.NumBlockN(b.p) && lo == startN * b.p.blockM
    requires dq.Length0 == b.p.seqlenQ && dq.Length1 == b.p.headdim
    requires dk.Length0 == dv.Length0 == b.p.seqlenK && dk.Length1 == dv.Length1 == b.p.headdim
    requires dq != dk && dq != dv && dk != dv
    requires TritonBackward.Added(b.Plain(), startN, dq, before, 0)
    modifies dq, dk, dv
    ensures TritonBackward.Added(b.Plain(), startN, dq, before, b.p.seqlenQ)
    ensures forall j: nat :: lo <= j < lo + b.p.blockN && j < b.p.seqlenK ==>
              TritonBackward.KeyStored(b.Plain(), dk, dv, j)
    ensures forall j: nat :: j < lo && j < b.p.seqlenK && old(TritonBackward.KeyStored(b.Plain(), dk, dv, j))
                             ==> TritonBackward.KeyStored(b.Plain(), dk, dv, j)
  {
    SquareTiles(b.p, startN);
    b.PlainLaunchable();
    hide b.Launchable, Accumulated, b.p.Reference, TritonBackward.Added, TritonBackward.BeginM;
    TritonBackward.SkippedRows(b.Plain(), startN, dq, before);
    var dvAcc, dkAcc := AccumulateRows(b, startN, lo, dq, before);
    forall j, c | lo <= j < lo + b.p.blockN && 0 <= c < b.p.headdim {
      dv[j, c] := dvAcc(j, c);
    }
    forall j, c | lo <= j < lo + b.p.blockN && 0 <= c < b.p.headdim {
      dk[j, c] := dkAcc(j, c);
    }
    forall j, c | lo <= j < lo + b.p.blockN && 0 <= c < b.p.headdim
      ensures dv[j, c] == b.p.Reference().GradV(b.dout)(j, c)
      ensures dk[j, c] == b.p.Reference().GradK(b.dout)(j, c)
    {
      KeyGradients(b, startN, dvAcc, dkAcc, j, c);
    }
  }

  lemma KeyGradients(b: Backward, startN: nat, dv: Tensor, dk: Tensor, j: int, c: int)
    requires b.Launchable() && startN < TritonBackward.NumBlockN(b.p)
    requires startN * b.p.blockN <= j < b.p.seqlenK && 0 <= c < b.p.headdim
    requires Accumulated(b, dv, dk, startN * b.p.blockM, b.p.seqlenQ)
    ensures dv(j, c) == b.p.Reference().GradV(b.dout)(j, c)
    ensures dk(j, c) == b.p.Reference().GradK(b.dout)(j, c)
  {
    FinishedKey(b, startN, j, c);
  }

  /**
    The backward kernel. Although the upstream gradient was divided by `l` and the probabilities were
    never normalised, dq, dk and dv are the same reference gradients the log-sum-exp kernel computes.
   */
  method BwdKernel(b: Backward, dq: array2<real>, dk: array2<real>, dv: array2<real>)
    requires b.Launchable()
    requires dq.Length0 == b.p.seqlenQ && dq.Length1 == b.p.headdim
    requires dk.Length0 == dv.Length0 == b.p.seqlenK && dk.Length1 == dv.Length1 == b.p.headdim
    requires dq != dk && dq != dv && dk != dv
    requires forall i, c | 0 <= i < b.p.seqlenQ && 0 <= c < b.p.headdim :: dq[i, c] == 0.0
    modifies dq, dk, dv
    ensures forall i, c | 0 <= i < b.p.seqlenQ && 0 <= c < b.p.headdim ::
              dq[i, c] == b.p.Reference().GradQ(b.dout)(i, c)
    ensures forall j, c | 0 <= j < b.p.seqlenK && 0 <= c < b.p.headdim ::
              dk[j, c] == b.p.Reference().GradK(b.dout)(j, c) && dv[j, c] == b.p.Reference().GradV(b.dout)(j, c)
  {
    b.PlainLaunchable();
    ghost var plain := b.Plain();
    assert TritonBackward.Added(plain, 0, dq, TritonBackward.DqAfter(plain, 0), 0);
    hide b.Launchable, b.p.Reference, plain.Launchable, TritonBackward.BlockContribution;
    var numBlock := Cdiv(b.p.seqlenK, b.p.blockN);
    var lo := 0;
    for startN := 0 to numBlock
      invariant lo == startN * b.p.blockN
      invariant TritonBackward.Added(plain, startN, dq, TritonBackward.DqAfter(plain, lo), 0)
      invariant forall j: nat | j < lo && j < b.p.seqlenK :: TritonBackward.KeyStored(plain, dk, dv, j)
    {
      BwdColBlock(b, startN, lo, dq, dk, dv, TritonBackward.DqAfter(plain, lo));
      TritonBackward.NextBlock(plain, startN, dq);
      lo := lo + b.p.blockN;
      assert lo == (startN + 1) * b.p.blockN;
    }
    TritonBackward.LastBlock(b.p);
    forall i, c | 0 <= i < b.p.seqlenQ && 0 <= c < b.p.headdim
      ensures dq[i, c] == b.p.Reference().GradQ(b.dout)(i, c)
    {
      TritonBackward.AllBlocksMatch(plain, i, c);
    }
    forall j, c | 0 <= j < b.p.seqlenK && 0 <= c < b.p.headdim
      ensures dk[j, c] == b.p.Reference().GradK(b.dout)(j, c) && dv[j, c] == b.p.Reference().GradV(b.dout)(j, c)
    {
      assert TritonBackward.KeyStored(plain, dk, dv, j);
    }
  }
}
