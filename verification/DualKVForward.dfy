/**
  The DualKV forward kernel: one row, tiles in reverse order, an unnormalised running softmax that
  tolerates tiles in which the row sees nothing.
 */
module DualKVForward {
  import opened RealSums
  import opened ExpLogs
  import opened LinearAlgebra
  import opened Attention
  import opened CxxArithmetic
  import opened DualKV
  import opened DualKVTiles

  /** The running row maximum is of unscaled scores. */
  datatype Running = Running(rowMax: Ext, rowSum: real, acc: Vector)

  /** `max * scale`, with minus infinity replaced by zero. */
  function MaxScaled(m: Ext, scale: real): real {
    if m.NegInf? then 0.0 else m.val * scale
  }

  /** The exponentials of a tile relative to the scaled maximum. */
  function TileProbs(el: ExpLog, scale: real, s: int -> Ext, m: Ext): Vector
    requires scale > 0.0
  {
    var shift := MaxScaled(m, scale);
    col => ExpExt(el, SubExt(ScaleExt(s(col), scale), Fin(shift)))
  }

  /** The factor by which sums held relative to `prev` are moved to the maximum `cur`. */
  function ScoresScale(el: ExpLog, scale: real, prev: Ext, cur: Ext): real
    requires scale > 0.0 && cur.Fin?
  {
    ExpExt(el, ScaleExt(SubExt(prev, cur), scale))
  }

  ghost predicate IsRescaled(acc: Vector, factor: real, acc': Vector) {
    forall c :: acc'(c) == acc(c) * factor
  }

  function AddTile(acc: Vector, p: Vector, v: Tensor, width: int): Vector {
    c => acc(c) + Inner(width, p, Column(v, c))
  }

  /** `softmax_rescale_o`. The flag `isFirst` starts from scratch; `checkInf` guards an all-masked maximum. */
  method SoftmaxRescale(el: ExpLog, scale: real, isFirst: bool, checkInf: bool, s: int -> Ext, width: int, st: Running)
    returns (st': Running, p: Vector)
    requires scale > 0.0
    requires isFirst ==> st == Running(NegInf, 0.0, Zeros())
    requires !isFirst && !checkInf ==> MaxExt(st.rowMax, TileMax(s, 0, width)).Fin?
    ensures st'.rowMax == MaxExt(st.rowMax, TileMax(s, 0, width))
    ensures p == TileProbs(el, scale, s, st'.rowMax)
    ensures var factor := ScoresScale(el, scale, st.rowMax, if st'.rowMax.NegInf? then Fin(0.0) else st'.rowMax);
            st'.rowSum == st.rowSum * factor + Sum(0, width, p) && IsRescaled(st.acc, factor, st'.acc)
  {
    if isFirst {
      var rowMax := TileMax(s, 0, width);
      p := TileProbs(el, scale, s, rowMax);
      st' := Running(rowMax, Sum(0, width, p), st.acc);
    } else {
      var rowMax := MaxExt(st.rowMax, TileMax(s, 0, width));
      var cur := if !checkInf then rowMax else if rowMax.NegInf? then Fin(0.0) else rowMax;
      var factor := ScoresScale(el, scale, st.rowMax, cur);
      p := TileProbs(el, scale, s, rowMax);
      st' := Running(rowMax, st.rowSum * factor + Sum(0, width, p), ScaleRow(st.acc, factor));
    }
  }

  // ----- What the running state stands for ----------------------------------------------------------

  /** The sum and the accumulator, moved back to absolute weights, are `w` and `wv`. */
  ghost predicate StandsFor(el: ExpLog, scale: real, st: Running, w: real, wv: Vector) {
    && st.rowSum >= 0.0
    && st.rowSum * el.exp(MaxScaled(st.rowMax, scale)) == w
    && (forall c :: ColumnStandsFor(el, scale, st, wv, c))
    && (st.rowMax.NegInf? ==> st.rowSum == 0.0 && forall c :: st.acc(c) == 0.0)
  }

  ghost predicate ColumnStandsFor(el: ExpLog, scale: real, st: Running, wv: Vector, c: int) {
    st.acc(c) * el.exp(MaxScaled(st.rowMax, scale)) == wv(c)
  }

  function TileWeights(el: ExpLog, scale: real, s: int -> Ext): Vector
    requires scale > 0.0
  {
    col => ExpExt(el, ScaleExt(s(col), scale))
  }

  lemma ProbShift(el: ExpLog, scale: real, s: int -> Ext, m: Ext, width: int)
    requires el.Valid() && scale > 0.0
    ensures Sum(0, width, TileWeights(el, scale, s))
            == el.exp(MaxScaled(m, scale)) * Sum(0, width, TileProbs(el, scale, s, m))
    ensures forall v: Vector ::
              Inner(width, TileWeights(el, scale, s), v)
                == el.exp(MaxScaled(m, scale)) * Inner(width, TileProbs(el, scale, s, m), v)
  {
    var e, p := el.exp(MaxScaled(m, scale)), TileProbs(el, scale, s, m);
    forall col | 0 <= col < width ensures TileWeights(el, scale, s)(col) == Scaled(e, p)(col) {
      ShiftExt(el, ScaleExt(s(col), scale), Fin(MaxScaled(m, scale)));
    }
    hide Inner, Scaled, TileProbs, TileWeights;
    SumCongruence(0, width, TileWeights(el, scale, s), Scaled(e, p));
    SumScaled(0, width, e, p);
    forall v: Vector ensures Inner(width, TileWeights(el, scale, s), v) == e * Inner(width, p, v) {
      InnerCongruence(width, TileWeights(el, scale, s), v, Scaled(e, p), v);
      InnerScaled(width, e, p, v);
    }
  }

  /** Moving a quantity to a new finite maximum and back to absolute weights leaves it unchanged. */
  lemma FactorShift(el: ExpLog, scale: real, prev: Ext, cur: real, shift: real)
    requires el.Valid() && scale > 0.0 && shift == cur * scale
    ensures prev.Fin? ==> ScoresScale(el, scale, prev, Fin(cur)) * el.exp(shift) == el.exp(MaxScaled(prev, scale))
    ensures ScoresScale(el, scale, prev, Fin(cur)) >= 0.0
  {
    ExpExtNonNegative(el, ScaleExt(SubExt(prev, Fin(cur)), scale));
    if prev.Fin? {
      var a, d := MaxScaled(prev, scale), (prev.val - cur) * scale;
      DifferenceScaled(prev.val, cur, scale);
      assert d == a - shift;
      assert SubExt(prev, Fin(cur)) == Fin(prev.val - cur);
      assert ScaleExt(Fin(prev.val - cur), scale) == Fin(d);
      el.Shift(a, shift);
    }
  }

  lemma DifferenceScaled(a: real, b: real, x: real)
    ensures (a - b) * x == a * x - b * x
  {
  }

  /** Rescaling keeps what a quantity stands for, also when nothing has been seen before or at all. */
  lemma RescaleKeeps(el: ExpLog, scale: real, prev: Ext, next: Ext, x: real, w: real)
    requires el.Valid() && scale > 0.0
    requires next.NegInf? ==> prev.NegInf?
    requires prev.NegInf? ==> x == 0.0
    requires x * el.exp(MaxScaled(prev, scale)) == w
    ensures var cur := if next.NegInf? then Fin(0.0) else next;
            x * ScoresScale(el, scale, prev, cur) * el.exp(MaxScaled(next, scale)) == w
  {
    var cur := if next.NegInf? then Fin(0.0) else next;
    var shift := MaxScaled(next, scale);
    assert shift == cur.val * scale;
    FactorShift(el, scale, prev, cur.val, shift);
    var factor, e := ScoresScale(el, scale, prev, cur), el.exp(MaxScaled(next, scale));
    MulAssociates(x, factor, e);
    if prev.Fin? {
      assert factor * e == el.exp(MaxScaled(prev, scale));
    }
  }

  // ----- One tile -----------------------------------------------------------------------------------

  function TileScores(a: Launch, i: int, n: int): int -> Ext
    requires a.blockN > 0
  {
    col => a.MaskedScore(i, n, col)
  }

  function TileValues(a: Launch, n: int): Tensor
    requires a.blockN > 0
  {
    (col, c) => a.LoadSlot(a.vContext, a.vDecoded, n, col)(c)
  }

  function WeightedValues(a: Launch, i: int, c: int): Vector {
    Products(a.Reference().Weights(i), Column(a.Values(), c))
  }

  /** The sums that the tiles `lo .. hi` add to the row's denominator and numerators. */
  function RangeWeights(a: Launch, i: int, lo: int, hi: int): real
    requires a.blockN > 0
  {
    Sum(lo, hi, TileSums(a, a.Reference().Weights(i)))
  }

  function RangeValues(a: Launch, i: int, lo: int, hi: int): Vector
    requires a.blockN > 0
  {
    c => Sum(lo, hi, TileSums(a, WeightedValues(a, i, c)))
  }

  lemma TileWeightSum(a: Launch, i: int, n: int)
    requires a.Valid() && n >= 0
    ensures Sum(0, a.blockN, TileWeights(a.el, a.scale, TileScores(a, i, n)))
            == TileSums(a, a.Reference().Weights(i))(n)
  {
    forall col | 0 <= col < a.blockN
      ensures TileWeights(a.el, a.scale, TileScores(a, i, n))(col) == SlotTerms(a, a.Reference().Weights(i), n)(col)
    {
      a.SlotWeight(i, n, col);
    }
    SumCongruence(0, a.blockN, TileWeights(a.el, a.scale, TileScores(a, i, n)),
        SlotTerms(a, a.Reference().Weights(i), n));
  }

  lemma SlotValue(a: Launch, i: int, n: int, col: int, c: int)
    requires a.Valid() && n >= 0 && 0 <= col < a.blockN
    ensures TileWeights(a.el, a.scale, TileScores(a, i, n))(col) * TileValues(a, n)(col, c)
         == SlotTerms(a, WeightedValues(a, i, c), n)(col)
  {
    a.SlotWeight(i, n, col);
    hide a.Reference, a.MaskedScore, ScaleExt;
    if a.IsKey(n, col) {
      a.SlotLoads(a.vContext, a.vDecoded, n, col);
      var w, x := a.Reference().Weights(i)(a.KeyPos(n) + col), a.Values()(a.KeyPos(n) + col, c);
      assert TileWeights(a.el, a.scale, TileScores(a, i, n))(col) == w;
      assert TileValues(a, n)(col, c) == x;
    } else {
      assert TileWeights(a.el, a.scale, TileScores(a, i, n))(col) == 0.0;
    }
  }

  lemma TileValueSum(a: Launch, i: int, n: int, c: int)
    requires a.Valid() && n >= 0
    ensures Inner(a.blockN, TileWeights(a.el, a.scale, TileScores(a, i, n)), Column(TileValues(a, n), c))
         == TileSums(a, WeightedValues(a, i, c))(n)
  {
    var products := Products(TileWeights(a.el, a.scale, TileScores(a, i, n)), Column(TileValues(a, n), c));
    forall col | 0 <= col < a.blockN ensures products(col) == SlotTerms(a, WeightedValues(a, i, c), n)(col) {
      SlotValue(a, i, n, col, c);
    }
    SumCongruence(0, a.blockN, products, SlotTerms(a, WeightedValues(a, i, c), n));
  }

  lemma RangeStep(a: Launch, i: int, n: int, hi: int, c: int)
    requires a.blockN > 0 && n < hi
    ensures RangeWeights(a, i, n, hi) == TileSums(a, a.Reference().Weights(i))(n) + RangeWeights(a, i, n + 1, hi)
    ensures RangeValues(a, i, n, hi)(c) == TileSums(a, WeightedValues(a, i, c))(n) + RangeValues(a, i, n + 1, hi)(c)
  {
    FirstTerm(n, hi, TileSums(a, a.Reference().Weights(i)));
    FirstTerm(n, hi, TileSums(a, WeightedValues(a, i, c)));
  }

  lemma FirstTerm(lo: int, hi: int, f: Vector)
    requires lo < hi
    ensures Sum(lo, hi, f) == f(lo) + Sum(lo + 1, hi, f)
  {
    SumSplit(lo, lo + 1, hi, f);
    assert Sum(lo, lo + 1, f) == Sum(lo, lo, f) + f(lo);
  }

  /** A maximum that stays infinite means the tile holds nothing the row can see. */
  lemma MaskedTile(a: Launch, i: int, n: int)
    requires a.Valid() && TileMax(TileScores(a, i, n), 0, a.blockN).NegInf?
    ensures Sum(0, a.blockN, TileProbs(a.el, a.scale, TileScores(a, i, n), NegInf)) == 0.0
    ensures forall v: Vector :: Inner(a.blockN, TileProbs(a.el, a.scale, TileScores(a, i, n), NegInf), v) == 0.0
  {
    var s := TileScores(a, i, n);
    var p := TileProbs(a.el, a.scale, s, NegInf);
    forall col | 0 <= col < a.blockN ensures p(col) == 0.0 {
      assert LeqExt(s(col), TileMax(s, 0, a.blockN));
    }
    SumZero(0, a.blockN, p);
    forall v: Vector ensures Inner(a.blockN, p, v) == 0.0 {
      SumZero(0, a.blockN, Products(p, v));
    }
  }

  lemma CombineTerms(x: real, factor: real, tile: real, e: real, w: real, wTile: real)
    requires x * factor * e == w && e * tile == wTile
    ensures (x * factor + tile) * e == wTile + w
  {
    MulDistributes(x * factor, tile, e);
  }

  lemma ProbsNonNegative(el: ExpLog, scale: real, s: int -> Ext, m: Ext, width: int)
    requires el.Valid() && scale > 0.0
    ensures Sum(0, width, TileProbs(el, scale, s, m)) >= 0.0
  {
    forall col | 0 <= col < width ensures TileProbs(el, scale, s, m)(col) >= 0.0 {
      ExpExtNonNegative(el, SubExt(ScaleExt(s(col), scale), Fin(MaxScaled(m, scale))));
    }
    SumNonNegative(0, width, TileProbs(el, scale, s, m));
  }

  lemma ScoresScaleNonNegative(el: ExpLog, scale: real, prev: Ext, cur: Ext, x: real)
    requires el.Valid() && scale > 0.0 && cur.Fin? && x >= 0.0
    ensures x * ScoresScale(el, scale, prev, cur) >= 0.0
  {
    ExpExtNonNegative(el, ScaleExt(SubExt(prev, cur), scale));
  }

  lemma SumStep(a: Launch, i: int, n: int, hi: int, prev: Ext, next: Ext, x: real, p: Vector)
    requires a.Valid() && 0 <= n < hi && x >= 0.0
    requires next == MaxExt(prev, TileMax(TileScores(a, i, n), 0, a.blockN)) && (prev.NegInf? ==> x == 0.0)
    requires x * a.el.exp(MaxScaled(prev, a.scale)) == RangeWeights(a, i, n + 1, hi)
    requires p == TileProbs(a.el, a.scale, TileScores(a, i, n), next)
    ensures var factor := ScoresScale(a.el, a.scale, prev, if next.NegInf? then Fin(0.0) else next);
            var rowSum := x * factor + Sum(0, a.blockN, p);
            rowSum >= 0.0 && rowSum * a.el.exp(MaxScaled(next, a.scale)) == RangeWeights(a, i, n, hi)
  {
    hide RangeWeights, RangeValues, TileSums, TileProbs, ScoresScale, Sum, Inner, TileScores, TileMax, MaxScaled,
         TileWeights;
    var cur := if next.NegInf? then Fin(0.0) else next;
    var factor, e := ScoresScale(a.el, a.scale, prev, cur), a.el.exp(MaxScaled(next, a.scale));
    RescaleKeeps(a.el, a.scale, prev, next, x, RangeWeights(a, i, n + 1, hi));
    ProbShift(a.el, a.scale, TileScores(a, i, n), next, a.blockN);
    TileWeightSum(a, i, n);
    RangeStep(a, i, n, hi, 0);
    ProbsNonNegative(a.el, a.scale, TileScores(a, i, n), next, a.blockN);
    ScoresScaleNonNegative(a.el, a.scale, prev, cur, x);
    CombineTerms(x, factor, Sum(0, a.blockN, p), e, RangeWeights(a, i, n + 1, hi),
        TileSums(a, a.Reference().Weights(i))(n));
  }

  lemma ColumnStep(a: Launch, i: int, n: int, hi: int, prev: Ext, next: Ext, x: real, p: Vector, c: int)
    requires a.Valid() && 0 <= n < hi
    requires next == MaxExt(prev, TileMax(TileScores(a, i, n), 0, a.blockN)) && (prev.NegInf? ==> x == 0.0)
    requires x * a.el.exp(MaxScaled(prev, a.scale)) == RangeValues(a, i, n + 1, hi)(c)
    requires p == TileProbs(a.el, a.scale, TileScores(a, i, n), next)
    ensures var factor := ScoresScale(a.el, a.scale, prev, if next.NegInf? then Fin(0.0) else next);
            (x * factor + Inner(a.blockN, p, Column(TileValues(a, n), c))) * a.el.exp(MaxScaled(next, a.scale))
            == RangeValues(a, i, n, hi)(c)
  {
    hide RangeWeights, RangeValues, TileSums, TileProbs, ScoresScale, Sum, Inner, TileScores, TileMax,
         TileValues, MaxScaled, TileWeights;
    var factor := ScoresScale(a.el, a.scale, prev, if next.NegInf? then Fin(0.0) else next);
    var e := a.el.exp(MaxScaled(next, a.scale));
    RescaleKeeps(a.el, a.scale, prev, next, x, RangeValues(a, i, n + 1, hi)(c));
    ProbShift(a.el, a.scale, TileScores(a, i, n), next, a.blockN);
    TileValueSum(a, i, n, c);
    RangeStep(a, i, n, hi, c);
    CombineTerms(x, factor, Inner(a.blockN, p, Column(TileValues(a, n), c)), e,
                 RangeValues(a, i, n + 1, hi)(c), TileSums(a, WeightedValues(a, i, c))(n));
  }

  /** As long as the maximum is infinite, sum and accumulator are still zero. */
  lemma MaskedStep(a: Launch, i: int, n: int, st: Running, mid: Running, p: Vector)
    requires a.Valid() && n >= 0
    requires st.rowMax.NegInf? ==> st.rowSum == 0.0 && forall c :: st.acc(c) == 0.0
    requires mid.rowMax == MaxExt(st.rowMax, TileMax(TileScores(a, i, n), 0, a.blockN)) == NegInf
    requires p == TileProbs(a.el, a.scale, TileScores(a, i, n), mid.rowMax)
    requires mid.rowSum == st.rowSum * ScoresScale(a.el, a.scale, st.rowMax, Fin(0.0)) + Sum(0, a.blockN, p)
    requires IsRescaled(st.acc, ScoresScale(a.el, a.scale, st.rowMax, Fin(0.0)), mid.acc)
    ensures mid.rowSum == 0.0 && forall c :: AddTile(mid.acc, p, TileValues(a, n), a.blockN)(c) == 0.0
  {
    hide TileProbs, ScoresScale, Sum, Inner, TileScores, TileMax;
    MaskedTile(a, i, n);
    var factor := ScoresScale(a.el, a.scale, st.rowMax, Fin(0.0));
    assert 0.0 * factor == 0.0;
    forall c ensures AddTile(mid.acc, p, TileValues(a, n), a.blockN)(c) == 0.0 {
      assert mid.acc(c) == st.acc(c) * factor;
    }
  }

  /** One tile of the reverse walk: the state that stood for the later tiles stands for this one too. */
  lemma TileStep(a: Launch, i: int, n: int, hi: int, st: Running, mid: Running, p: Vector)
    requires a.Valid() && 0 <= n < hi
    requires StandsFor(a.el, a.scale, st, RangeWeights(a, i, n + 1, hi), RangeValues(a, i, n + 1, hi))
    requires mid.rowMax == MaxExt(st.rowMax, TileMax(TileScores(a, i, n), 0, a.blockN))
    requires p == TileProbs(a.el, a.scale, TileScores(a, i, n), mid.rowMax)
    requires var factor := ScoresScale(a.el, a.scale, st.rowMax, if mid.rowMax.NegInf? then Fin(0.0) else mid.rowMax);
             mid.rowSum == st.rowSum * factor + Sum(0, a.blockN, p) && IsRescaled(st.acc, factor, mid.acc)
    ensures StandsFor(a.el, a.scale, mid.(acc := AddTile(mid.acc, p, TileValues(a, n), a.blockN)),
                      RangeWeights(a, i, n, hi), RangeValues(a, i, n, hi))
  {
    hide RangeWeights, RangeValues, TileProbs, ScoresScale, TileMax, Inner, Sum, TileScores, TileValues, MaxScaled;
    var factor := ScoresScale(a.el, a.scale, st.rowMax, if mid.rowMax.NegInf? then Fin(0.0) else mid.rowMax);
    var st' := mid.(acc := AddTile(mid.acc, p, TileValues(a, n), a.blockN));
    SumStep(a, i, n, hi, st.rowMax, mid.rowMax, st.rowSum, p);
    forall c ensures ColumnStandsFor(a.el, a.scale, st', RangeValues(a, i, n, hi), c) {
      assert ColumnStandsFor(a.el, a.scale, st, RangeValues(a, i, n + 1, hi), c);
      ColumnStep(a, i, n, hi, st.rowMax, mid.rowMax, st.acc(c), p, c);
      var x := st.acc(c) * factor + Inner(a.blockN, p, Column(TileValues(a, n), c));
      assert st'.acc(c) == x;
    }
    if mid.rowMax.NegInf? {
      MaskedStep(a, i, n, st, mid, p);
    }
  }

  // ----- The kernel ---------------------------------------------------------------------------------

  /** The stored log-sum-exp; a row that sees no key stores plus infinity. */
  datatype StoredLse = Infinite | Finite(val: real)

  function ReferenceLse(a: Launch, i: int): StoredLse {
    if a.Reference().Denominator(i) == 0.0 then Infinite else Finite(a.Reference().Lse(i))
  }

  lemma InitialState(a: Launch, i: int, hi: int)
    requires a.Valid()
    ensures StandsFor(a.el, a.scale, Running(NegInf, 0.0, Zeros()), RangeWeights(a, i, hi, hi),
                RangeValues(a, i, hi, hi))
  {
    forall c ensures ColumnStandsFor(a.el, a.scale, Running(NegInf, 0.0, Zeros()), RangeValues(a, i, hi, hi), c) {
    }
  }

  /** The sums over the walked tiles are the reference denominator and numerators. */
  lemma WalkedSums(a: Launch, mBlock: nat, i: int, c: int)
    requires a.Valid() && i < (mBlock + 1) * a.blockM
    ensures var hi := Max(0, BlockMax(a, mBlock));
            && RangeWeights(a, i, 0, hi) == a.Reference().Denominator(i)
            && RangeValues(a, i, 0, hi)(c) == Inner(a.SeqlenK(), a.Reference().Weights(i), Column(a.Values(), c))
  {
    WalkedTilesSuffice(a, mBlock, i, a.Reference().Weights(i));
    WalkedTilesSuffice(a, mBlock, i, WeightedValues(a, i, c));
  }

  lemma EmptyRow(a: Problem, i: int, c: int)
    requires a.el.Valid() && a.Denominator(i) == 0.0
    ensures a.Output(i, c) == 0.0
    ensures Inner(a.seqlenK, a.Weights(i), Column(a.v, c)) == 0.0
  {
    a.DenominatorPositive(i);
    SumZero(0, a.seqlenK, Products(a.Probs(i), Column(a.v, c)));
    SumZero(0, a.seqlenK, Products(a.Weights(i), Column(a.v, c)));
  }

  /** `normalize_softmax_lse` on the finished state gives the reference output and log-sum-exp. */
  lemma Normalised(a: Launch, mBlock: nat, i: int, st: Running, c: int)
    requires a.Valid() && i < (mBlock + 1) * a.blockM
    requires var hi := Max(0, BlockMax(a, mBlock));
             StandsFor(a.el, a.scale, st, RangeWeights(a, i, 0, hi), RangeValues(a, i, 0, hi))
    ensures st.rowSum == 0.0 <==> a.Reference().Denominator(i) == 0.0
    ensures st.rowSum != 0.0 ==> st.rowMax.Fin?
    ensures st.rowSum != 0.0 ==> MaxScaled(st.rowMax, a.scale) + a.el.log(st.rowSum) == a.Reference().Lse(i)
    ensures st.rowSum != 0.0 ==> st.acc(c) * (1.0 / st.rowSum) == a.Reference().Output(i, c)
    ensures st.rowSum == 0.0 ==> a.Reference().Output(i, c) == 0.0 == st.acc(c)
  {
    hide RangeWeights, RangeValues, BlockMax, MaxScaled, Inner;
    var ref, m := a.Reference(), MaxScaled(st.rowMax, a.scale);
    var num := Inner(a.SeqlenK(), ref.Weights(i), Column(a.Values(), c));
    WalkedSums(a, mBlock, i, c);
    a.el.Positive(m);
    ZeroProduct(st.rowSum, a.el.exp(m));
    assert ColumnStandsFor(a.el, a.scale, st, RangeValues(a, i, 0, Max(0, BlockMax(a, mBlock))), c);
    if st.rowSum == 0.0 {
      EmptyRow(ref, i, c);
      ZeroProduct(st.acc(c), a.el.exp(m));
    } else {
      LseOfSum(a.el, m, st.rowSum, ref.Denominator(i));
      ref.OutputFromWeights(i, c);
      NormalisedQuotient(st.acc(c), st.rowSum, a.el.exp(m), ref.Denominator(i), num);
    }
  }

  lemma ZeroProduct(x: real, e: real)
    requires e > 0.0
    ensures x == 0.0 <==> x * e == 0.0
  {
  }

  lemma LseOfSum(el: ExpLog, m: real, sum: real, den: real)
    requires el.Valid() && sum > 0.0 && sum * el.exp(m) == den
    ensures m + el.log(sum) == el.log(den)
  {
    el.Sum(m, el.log(sum));
    el.ExpOfLog(sum);
    assert el.exp(m + el.log(sum)) == den;
    el.LogOfExp(m + el.log(sum));
  }

  lemma NormalisedQuotient(acc: real, sum: real, e: real, den: real, num: real)
    requires sum != 0.0 && e > 0.0 && den != 0.0
    requires sum * e == den && acc * e == num
    ensures acc * (1.0 / sum) == num / den
  {
    var o := acc * (1.0 / sum);
    DivideIsScale(acc, sum);
    assert acc / sum * sum == acc;
    assert o * sum == acc;
    MulAssociates(o, sum, e);
    Quotient(o, den, num);
  }

  /** Without a causal mask the last tile holds a key, and every key is visible. */
  lemma LastTileVisible(a: Launch, mBlock: nat, i: int, n: int)
    requires a.Valid() && !a.isCausal && n == BlockMax(a, mBlock) - 1 && n >= 0
    ensures TileMax(TileScores(a, i, n), 0, a.blockN).Fin?
  {
    hide CeilDiv;
    a.BlockCounts();
    ProductOrder(0, n, a.blockN);
    assert a.IsKey(n, 0);
    a.KeySlot(n, 0);
    hide a.KeyPos, a.IsKey, Inner;
    assert TileScores(a, i, n)(0) == a.MaskedScore(i, n, 0);
    assert LeqExt(TileScores(a, i, n)(0), TileMax(TileScores(a, i, n), 0, a.blockN));
  }

  /**
    `normalize_softmax_lse`: divide by the sum, unless nothing was summed. On a state that stands for the
    walked tiles of a row this gives the row's attention and log-sum-exp; zeros and infinity if it sees no key.
   */
  method NormalizeSoftmaxLse(a: Launch, ghost mBlock: nat, ghost i: int, st: Running)
      returns (o: Vector, lse: StoredLse)
    requires a.Valid() && i < (mBlock + 1) * a.blockM
    requires var hi := Max(0, BlockMax(a, mBlock));
             StandsFor(a.el, a.scale, st, RangeWeights(a, i, 0, hi), RangeValues(a, i, 0, hi))
    ensures forall c :: o(c) == a.Reference().Output(i, c)
    ensures lse == ReferenceLse(a, i)
  {
    hide a.Reference, RangeWeights, RangeValues, BlockMax, StandsFor;
    var invSum := if st.rowSum == 0.0 then 1.0 else 1.0 / st.rowSum;
    lse := if st.rowSum == 0.0 then Infinite else Finite(MaxScaled(st.rowMax, a.scale) + a.el.log(st.rowSum));
    o := ScaleRow(st.acc, invSum);
    forall c ensures o(c) == a.Reference().Output(i, c) {
      Normalised(a, mBlock, i, st, c);
    }
    assert lse == ReferenceLse(a, i) by { Normalised(a, mBlock, i, st, 0); }
  }

  /**
    Row `r` of row block `mBlock`: the reverse walk over the physical tiles, then the normalisation. It
    yields attention over the context followed by the decoded keys, with the causal mask aligned to the
    bottom right; a row that sees no key yields zeros.
   */
  method FwdRow(a: Launch, mBlock: nat, r: nat) returns (o: Vector, lse: StoredLse)
    requires a.Valid() && r < a.blockM && mBlock * a.blockM + r < a.seqlenQ
    ensures forall c :: o(c) == a.Reference().Output(mBlock * a.blockM + r, c)
    ensures lse == ReferenceLse(a, mBlock * a.blockM + r)
  {
    hide a.Reference, RangeWeights, RangeValues, StandsFor, TileProbs, TileMax, TileScores, ScoresScale, Sum;
    var i := mBlock * a.blockM + r;
    assert i < (mBlock + 1) * a.blockM;
    var nBlockMax := BlockMax(a, mBlock);
    var st := Running(NegInf, 0.0, Zeros());
    var nBlock := nBlockMax - 1;
    ghost var hi := Max(0, nBlockMax);
    InitialState(a, i, hi);
    if nBlockMax <= 0 {
      o := Zeros();
      lse := Infinite;
      forall c ensures o(c) == a.Reference().Output(i, c) && a.Reference().Denominator(i) == 0.0 {
        Normalised(a, mBlock, i, st, c);
      }
      assert a.Reference().Denominator(i) == 0.0 by { Normalised(a, mBlock, i, st, 0); }
      return;
    }
    while nBlock >= 0
      invariant -1 <= nBlock < nBlockMax == hi
      invariant StandsFor(a.el, a.scale, st, RangeWeights(a, i, nBlock + 1, hi), RangeValues(a, i, nBlock + 1, hi))
      invariant nBlock == nBlockMax - 1 ==> st == Running(NegInf, 0.0, Zeros())
      invariant !a.isCausal && nBlock < nBlockMax - 1 ==> st.rowMax.Fin?
    {
      var isFirst := nBlock == nBlockMax - 1;
      if isFirst && !a.isCausal {
        LastTileVisible(a, mBlock, i, nBlock);
      }
      var mid, p := SoftmaxRescale(a.el, a.scale, isFirst, a.isCausal, TileScores(a, i, nBlock), a.blockN, st);
      TileStep(a, i, nBlock, hi, st, mid, p);
      st := mid.(acc := AddTile(mid.acc, p, TileValues(a, nBlock), a.blockN));
      nBlock := nBlock - 1;
    }
    o, lse := NormalizeSoftmaxLse(a, mBlock, i, st);
  }
}
