/**
  One row of the online softmax that carries only a running maximum, a running log-sum-exp and an
  output accumulator scaled relative to the maximum.

  `s(j)` is the row's masked and scaled score for key `j`; `v` holds the value rows.
 */
module OnlineSoftmax {
  import opened RealSums
  import opened ExpLogs
  import opened LinearAlgebra

  datatype RowState = RowState(m: Ext, lse: Ext, acc: Vector)

  function InitialRow(): RowState {
    RowState(NegInf, NegInf, Zeros())
  }

  function Weight(el: ExpLog, s: int -> Ext): Vector {
    j => ExpExt(el, s(j))
  }

  /** The exponentials of the tile, taken relative to the finite maximum `m`. */
  function TileProbs(el: ExpLog, s: int -> Ext, m: real): Vector {
    j => ExpExt(el, SubExt(s(j), Fin(m)))
  }

  /** The factor that moves a quantity held relative to `from` to the maximum `m`. */
  function Rescale(el: ExpLog, from: Ext, m: real): real {
    ExpExt(el, SubExt(from, Fin(m)))
  }

  function NextMax(s: int -> Ext, st: RowState, lo: int, hi: int): Ext {
    MaxExt(TileMax(s, lo, hi), st.lse)
  }

  /** The sum whose logarithm is added to the new maximum. */
  function NextSum(el: ExpLog, s: int -> Ext, st: RowState, m: real, lo: int, hi: int): real {
    Rescale(el, st.lse, m) + Sum(lo, hi, TileProbs(el, s, m))
  }

  /** Rescale the accumulator, then add the tile's probabilities times its value rows. */
  function Accumulate(acc: Vector, accScale: real, p: Vector, v: Tensor, lo: int, hi: int): Vector {
    c => acc(c) * accScale + Sum(lo, hi, Products(p, Column(v, c)))
  }

  /** The update made for the keys `lo .. hi`. */
  function Step(el: ExpLog, s: int -> Ext, v: Tensor, st: RowState, lo: int, hi: int): RowState
    requires NextMax(s, st, lo, hi).Fin?
  {
    var m := NextMax(s, st, lo, hi).val;
    RowState(
      Fin(m),
      Fin(m + el.log(NextSum(el, s, st, m, lo, hi))),
      Accumulate(st.acc, Rescale(el, st.m, m), TileProbs(el, s, m), v, lo, hi))
  }

  ghost predicate AccumulatorExact(el: ExpLog, s: int -> Ext, v: Tensor, st: RowState, n: int, c: int) {
    st.acc(c) * ExpExt(el, st.m) == Sum(0, n, Products(Weight(el, s), Column(v, c)))
  }

  /** The state stands for exactly the first `n` keys. */
  ghost predicate Exact(el: ExpLog, s: int -> Ext, v: Tensor, st: RowState, n: int) {
    && LeqExt(st.m, st.lse)
    && ExpExt(el, st.lse) == Sum(0, n, Weight(el, s))
    && (forall c :: AccumulatorExact(el, s, v, st, n, c))
  }

  /** What holds of the quantities computed inside one update. */
  ghost predicate InRange(el: ExpLog, s: int -> Ext, st: RowState, lo: int, hi: int) {
    var next := NextMax(s, st, lo, hi);
    && next.Fin?
    && LeqExt(st.m, st.lse) && LeqExt(st.lse, next)
    && (forall j | lo <= j < hi :: 0.0 <= TileProbs(el, s, next.val)(j) <= 1.0)
    && 0.0 <= Rescale(el, st.m, next.val) <= 1.0
    && 1.0 <= NextSum(el, s, st, next.val, lo, hi) <= (hi - lo + 1) as real
  }

  lemma MaxBounds(s: int -> Ext, st: RowState, lo: int, hi: int)
    ensures LeqExt(st.lse, NextMax(s, st, lo, hi))
    ensures forall j | lo <= j < hi :: LeqExt(s(j), NextMax(s, st, lo, hi))
  {
  }

  lemma LeqTransitive(a: Ext, b: Ext, c: Ext)
    requires LeqExt(a, b) && LeqExt(b, c)
    ensures LeqExt(a, c)
  {
  }

  /** Starting from `m <= lse`, every intermediate quantity of an update stays in its range. */
  lemma StepInRange(el: ExpLog, s: int -> Ext, st: RowState, lo: int, hi: int)
    requires el.Valid() && lo <= hi
    requires LeqExt(st.m, st.lse) && NextMax(s, st, lo, hi).Fin?
    ensures InRange(el, s, st, lo, hi)
  {
    var next := NextMax(s, st, lo, hi);
    var m := next.val;
    MaxBounds(s, st, lo, hi);
    LeqTransitive(st.m, st.lse, next);
    var p := TileProbs(el, s, m);
    forall j | lo <= j < hi ensures 0.0 <= p(j) <= 1.0 {
      ExpExtAtMostOne(el, s(j), next);
    }
    ExpExtAtMostOne(el, st.m, next);
    ExpExtAtMostOne(el, st.lse, next);
    SumBounds(lo, hi, p);
    if st.lse != next {
      // the maximum is attained by a key of this tile
      var j :| lo <= j < hi && s(j) == next;
      SumAtLeast(lo, hi, p, j);
    }
  }

  /** Multiplying tile sums by `exp(m)` turns relative exponentials into weights. */
  lemma TileSumShift(el: ExpLog, s: int -> Ext, m: real, lo: int, hi: int)
    requires el.Valid()
    ensures Sum(lo, hi, Weight(el, s)) == el.exp(m) * Sum(lo, hi, TileProbs(el, s, m))
  {
    forall j | lo <= j < hi ensures Weight(el, s)(j) == el.exp(m) * TileProbs(el, s, m)(j) {
      ShiftExt(el, s(j), Fin(m));
    }
    SumScale(lo, hi, el.exp(m), TileProbs(el, s, m), Weight(el, s));
  }

  lemma TileValuesShift(el: ExpLog, s: int -> Ext, v: Tensor, m: real, lo: int, hi: int, c: int)
    requires el.Valid()
    ensures Sum(lo, hi, Products(Weight(el, s), Column(v, c)))
         == el.exp(m) * Sum(lo, hi, Products(TileProbs(el, s, m), Column(v, c)))
  {
    forall j | lo <= j < hi
      ensures Products(Weight(el, s), Column(v, c))(j) == el.exp(m) * Products(TileProbs(el, s, m), Column(v, c))(j)
    {
      ShiftExt(el, s(j), Fin(m));
      MulAssociates(el.exp(m), TileProbs(el, s, m)(j), v(j, c));
    }
    SumScale(lo, hi, el.exp(m), Products(TileProbs(el, s, m), Column(v, c)), Products(Weight(el, s), Column(v, c)));
  }

  /** `(a r + t) e` for a factor `r` with `r e = x`. */
  lemma RescaledSum(a: real, r: real, t: real, e: real, x: real, left: real, right: real)
    requires r * e == x && a * x == left && e * t == right
    ensures (a * r + t) * e == left + right
  {
    MulDistributes(a * r, t, e);
    MulAssociates(a, r, e);
  }

  lemma AccumulatorStep(el: ExpLog, s: int -> Ext, v: Tensor, st: RowState, lo: int, hi: int, c: int)
    requires el.Valid() && 0 <= lo <= hi
    requires AccumulatorExact(el, s, v, st, lo, c) && NextMax(s, st, lo, hi).Fin?
    ensures AccumulatorExact(el, s, v, Step(el, s, v, st, lo, hi), hi, c)
  {
    hide Sum, TileMax, LeqExt;
    var m := NextMax(s, st, lo, hi).val;
    hide NextMax, NextSum;
    var w := Products(Weight(el, s), Column(v, c));
    var e, r, tile := el.exp(m), Rescale(el, st.m, m), Sum(lo, hi, Products(TileProbs(el, s, m), Column(v, c)));
    ShiftExt(el, st.m, Fin(m));
    TileValuesShift(el, s, v, m, lo, hi, c);
    SumSplit(0, lo, hi, w);
    assert Step(el, s, v, st, lo, hi).acc(c) == st.acc(c) * r + tile;
    hide Step, Products, Column, Weight;
    RescaledSum(st.acc(c), r, tile, e, ExpExt(el, st.m), Sum(0, lo, w), Sum(lo, hi, w));
  }

  lemma NextSumShift(el: ExpLog, s: int -> Ext, st: RowState, m: real, lo: int, hi: int)
    requires el.Valid() && 0 <= lo <= hi
    requires ExpExt(el, st.lse) == Sum(0, lo, Weight(el, s))
    ensures el.exp(m) * NextSum(el, s, st, m, lo, hi) == Sum(0, hi, Weight(el, s))
  {
    hide Sum;
    var e, r, tile := el.exp(m), Rescale(el, st.lse, m), Sum(lo, hi, TileProbs(el, s, m));
    ShiftExt(el, st.lse, Fin(m));
    TileSumShift(el, s, m, lo, hi);
    SumSplit(0, lo, hi, Weight(el, s));
    hide Weight, TileProbs;
    assert 1.0 * r == r;
    RescaledSum(1.0, r, tile, e, ExpExt(el, st.lse), Sum(0, lo, Weight(el, s)), Sum(lo, hi, Weight(el, s)));
  }

  lemma LseStep(el: ExpLog, s: int -> Ext, v: Tensor, st: RowState, lo: int, hi: int)
    requires el.Valid() && 0 <= lo <= hi
    requires LeqExt(st.m, st.lse) && ExpExt(el, st.lse) == Sum(0, lo, Weight(el, s))
    requires NextMax(s, st, lo, hi).Fin?
    ensures var st' := Step(el, s, v, st, lo, hi);
            LeqExt(st'.m, st'.lse) && ExpExt(el, st'.lse) == Sum(0, hi, Weight(el, s))
  {
    hide NextSum, Accumulate, Weight, Sum;
    var m := NextMax(s, st, lo, hi).val;
    StepInRange(el, s, st, lo, hi);
    var l := NextSum(el, s, st, m, lo, hi);
    assert l >= 1.0;
    hide NextMax;
    NextSumShift(el, s, st, m, lo, hi);
    LogSumExp(el, m, l);
  }

  lemma LogSumExp(el: ExpLog, m: real, l: real)
    requires el.Valid() && l >= 1.0
    ensures m <= m + el.log(l)
    ensures el.exp(m + el.log(l)) == el.exp(m) * l
  {
    el.LogOfAtLeastOne(l);
    el.Sum(m, el.log(l));
    el.ExpOfLog(l);
  }

  /** One update takes a state that stands for the keys below `lo` to one for the keys below `hi`. */
  lemma StepExact(el: ExpLog, s: int -> Ext, v: Tensor, st: RowState, lo: int, hi: int)
    requires el.Valid() && 0 <= lo <= hi
    requires Exact(el, s, v, st, lo) && NextMax(s, st, lo, hi).Fin?
    ensures Exact(el, s, v, Step(el, s, v, st, lo, hi), hi)
  {
    LseStep(el, s, v, st, lo, hi);
    forall c ensures AccumulatorExact(el, s, v, Step(el, s, v, st, lo, hi), hi, c) {
      AccumulatorStep(el, s, v, st, lo, hi, c);
    }
  }

  /** Rescaling the accumulator from the maximum to the log-sum-exp yields the softmax average. */
  lemma FinalScale(el: ExpLog, s: int -> Ext, v: Tensor, st: RowState, n: int, c: int)
    requires el.Valid() && Exact(el, s, v, st, n) && st.m.Fin? && st.lse.Fin?
    ensures st.lse.val == el.log(Sum(0, n, Weight(el, s)))
    ensures Sum(0, n, Weight(el, s)) > 0.0
    ensures st.acc(c) * Rescale(el, st.m, st.lse.val) * Sum(0, n, Weight(el, s))
         == Sum(0, n, Products(Weight(el, s), Column(v, c)))
  {
    assert AccumulatorExact(el, s, v, st, n, c);
    el.Positive(st.lse.val);
    el.LogOfExp(st.lse.val);
    ShiftExt(el, st.m, st.lse);
    MulAssociates(st.acc(c), Rescale(el, st.m, st.lse.val), el.exp(st.lse.val));
  }
}
