/**
  What the abstract attention of a decoder layer is in the DualKV kernel: softmax attention of one query
  over the keys it can see. The problem the kernel is proved against is, row by row, the layer's causal
  segment over context keys followed by the sequence's own keys.
 */
module KernelMeaning {
  import opened RealSums
  import opened ExpLogs
  import opened LinearAlgebra
  import opened Attention
  import opened CxxArithmetic
  import opened DualKV
  import opened DualKVForward
  import opened PromptSharing

  /** Packed rows as a tensor. */
  function RowsTensor(rows: seq<Vector>): Tensor {
    (j, c) => if 0 <= j < |rows| then rows[j](c) else 0.0
  }

  /** One query that sees every key. */
  function OneQuery(el: ExpLog, headdim: nat, scale: real, query: Vector, ks: seq<Vector>, vs: seq<Vector>): Problem {
    Problem(el, 1, |ks|, headdim, scale, (i, c) => query(c), RowsTensor(ks), RowsTensor(vs), (i, j) => 0.0,
        (i, j) => true)
  }

  /** The attention of a layer, as a function of a query and the keys and values it sees. */
  function SoftmaxAttend(el: ExpLog, headdim: nat, scale: real): (Vector, seq<Vector>, seq<Vector>) -> Vector {
    (query, ks, vs) => OneQuery(el, headdim, scale, query, ks, vs).OutputRow(0)
  }

  /** A row's output depends only on the weights and values of the keys it sees. */
  lemma OutputFromVisibleKeys(a: Problem, i: int, b: Problem, c: int)
    requires a.el == b.el && a.el.Valid() && b.seqlenK <= a.seqlenK
    requires forall j | 0 <= j < b.seqlenK :: a.Weight(i, j) == b.Weight(0, j) && a.v(j, c) == b.v(j, c)
    requires forall j | b.seqlenK <= j < a.seqlenK :: a.Weight(i, j) == 0.0
    ensures a.Output(i, c) == b.Output(0, c)
  {
    hide Problem.Weight;
    SumCongruence(0, b.seqlenK, a.Weights(i), b.Weights(0));
    SumSupport(0, b.seqlenK, a.seqlenK, a.Weights(i));
    assert a.Denominator(i) == b.Denominator(0);
    var pa, pb := Products(a.Probs(i), Column(a.v, c)), Products(b.Probs(0), Column(b.v, c));
    forall j | 0 <= j < b.seqlenK ensures pa(j) == pb(j) {
      assert a.Prob(i, j) == b.Prob(0, j);
    }
    SumCongruence(0, b.seqlenK, pa, pb);
    forall j | b.seqlenK <= j < a.seqlenK ensures pa(j) == 0.0 {
      assert a.Prob(i, j) == 0.0;
    }
    SumSupport(0, b.seqlenK, a.seqlenK, pa);
  }

  /** A launch whose tensors hold these packed rows. */
  ghost predicate Holds(a: Launch, qs: seq<Vector>, kc: seq<Vector>, vc: seq<Vector>, kd: seq<Vector>, vd: seq<Vector>)
  {
    && a.isCausal && a.seqlenQ == |qs| && a.contextLen == |kc| == |vc| && a.decodedLen == |kd| == |vd|
    && (forall i, c | 0 <= i < |qs| :: a.q(i, c) == qs[i](c))
    && (forall j, c | 0 <= j < |kc| :: a.kContext(j, c) == kc[j](c) && a.vContext(j, c) == vc[j](c))
    && (forall j, c | 0 <= j < |kd| :: a.kDecoded(j, c) == kd[j](c) && a.vDecoded(j, c) == vd[j](c))
  }

  lemma JoinedRows(a: Launch, qs: seq<Vector>, kc: seq<Vector>, vc: seq<Vector>, kd: seq<Vector>, vd: seq<Vector>,
      n: nat, j: int, c: int)
    requires Holds(a, qs, kc, vc, kd, vd) && 0 <= j < n <= |kc| + |kd|
    ensures a.Keys()(j, c) == RowsTensor((kc + kd)[..n])(j, c)
    ensures a.Values()(j, c) == RowsTensor((vc + vd)[..n])(j, c)
  {
  }

  lemma VisibleWeight(a: Launch, qs: seq<Vector>, kc: seq<Vector>, vc: seq<Vector>, kd: seq<Vector>, vd: seq<Vector>,
      i: nat, j: int)
    requires Holds(a, qs, kc, vc, kd, vd) && i < |qs| && 0 <= j < |kc| + |kd|
    ensures var n := Clip(i + 1 + |kc + kd| - |qs|, |kc + kd|);
            a.Reference().Weight(i, j)
            == if j < n
               then OneQuery(a.el, a.headdim, a.scale, qs[i], (kc + kd)[..n], (vc + vd)[..n]).Weight(0, j)
               else 0.0
  {
    hide Inner;
    var n := Clip(i + 1 + |kc + kd| - |qs|, |kc + kd|);
    var b := OneQuery(a.el, a.headdim, a.scale, qs[i], (kc + kd)[..n], (vc + vd)[..n]);
    var dot := Inner(a.headdim, Row(a.q, i), Row(a.Keys(), j));
    a.ReferenceWeight(i, j, dot);
    assert j < Min(a.SeqlenK(), i + 1 + a.SeqlenK() - a.seqlenQ) <==> j < n;
    if j < n {
      assert Inner(b.headdim, Row(b.q, 0), Row(b.k, j)) == dot by {
        forall c | 0 <= c < a.headdim
          ensures Row(a.q, i)(c) == Row(b.q, 0)(c) && Row(a.Keys(), j)(c) == Row(b.k, j)(c)
        {
          JoinedRows(a, qs, kc, vc, kd, vd, n, j, c);
        }
        InnerCongruence(a.headdim, Row(a.q, i), Row(a.Keys(), j), Row(b.q, 0), Row(b.k, j));
      }
      var x := dot * a.scale;
      OneQueryWeight(b, j, dot, a.scale, x);
      assert b.Weight(0, j) == b.el.exp(x);
      assert b.Weight(0, j) == a.el.exp(x);
      assert a.Reference().Weight(i, j) == a.el.exp(x);
    }
  }

  lemma OneQueryWeight(b: Problem, j: int, dot: real, scale: real, x: real)
    requires 0 <= j < b.seqlenK && b.allowed(0, j) && b.bias(0, j) == 0.0
    requires Inner(b.headdim, Row(b.q, 0), Row(b.k, j)) == dot && b.scale == scale && x == dot * scale
    ensures b.Weight(0, j) == b.el.exp(x)
  {
    hide Inner;
    assert b.Score(0, j) == x;
    assert b.el.exp(b.Score(0, j)) == b.el.exp(x);
  }

  /**
    The problem the DualKV kernel solves is the layer's causal segment over the context's and the
    sequence's own keys, for every query row and column.
   */
  lemma ReferenceIsCausalSegment<H>(layer: Layer<H, Vector, Vector, Vector, Vector>, a: Launch, qs: seq<Vector>,
                                    kc: seq<Vector>, vc: seq<Vector>, kd: seq<Vector>, vd: seq<Vector>, i: nat, c: int)
    requires a.Valid() && Holds(a, qs, kc, vc, kd, vd) && i < |qs|
    requires layer.attend == SoftmaxAttend(a.el, a.headdim, a.scale)
    ensures a.Reference().Output(i, c) == layer.CausalSegment(qs, kc + kd, vc + vd)[i](c)
  {
    hide Problem.Weight, Problem.Output, Holds;
    assert |kc + kd| == |vc + vd| == a.SeqlenK() && |qs| == a.seqlenQ by { Extents(a, qs, kc, vc, kd, vd); }
    var n := Clip(i + 1 + |kc + kd| - |qs|, |kc + kd|);
    var b := OneQuery(a.el, a.headdim, a.scale, qs[i], (kc + kd)[..n], (vc + vd)[..n]);
    forall j | 0 <= j < a.SeqlenK()
      ensures a.Reference().Weight(i, j) == if j < n then b.Weight(0, j) else 0.0
      ensures j < n ==> a.Values()(j, c) == b.v(j, c)
    {
      VisibleWeight(a, qs, kc, vc, kd, vd, i, j);
      if j < n {
        JoinedRows(a, qs, kc, vc, kd, vd, n, j, c);
      }
    }
    OutputFromVisibleKeys(a.Reference(), i, b, c);
    assert layer.CausalSegment(qs, kc + kd, vc + vd)[i] == b.OutputRow(0);
  }

  lemma Extents(a: Launch, qs: seq<Vector>, kc: seq<Vector>, vc: seq<Vector>, kd: seq<Vector>, vd: seq<Vector>)
    requires Holds(a, qs, kc, vc, kd, vd)
    ensures |kc + kd| == |vc + vd| == a.SeqlenK() && |qs| == a.seqlenQ
  {
  }

  /**
    Every row block of the grid, every row below the end: the forward kernel computes the segment that
    `flash_attn_dualkv_varlen_func` contributes for this sequence.
   */
  method RunGrid<H>(layer: Layer<H, Vector, Vector, Vector, Vector>, a: Launch, ghost qs: seq<Vector>,
                    ghost kc: seq<Vector>, ghost vc: seq<Vector>, ghost kd: seq<Vector>, ghost vd: seq<Vector>)
      returns (os: seq<Vector>)
    requires a.Valid() && Holds(a, qs, kc, vc, kd, vd)
    requires layer.attend == SoftmaxAttend(a.el, a.headdim, a.scale)
    ensures |kc + kd| == |vc + vd| && |os| == |qs|
    ensures forall i, c | 0 <= i < |qs| :: os[i](c) == layer.CausalSegment(qs, kc + kd, vc + vd)[i](c)
  {
    hide Launch.Reference, Problem.Output, Holds;
    Extents(a, qs, kc, vc, kd, vd);
    os := [];
    var mBlock := 0;
    while |os| < a.seqlenQ
      invariant |os| <= a.seqlenQ && (|os| == mBlock * a.blockM || |os| == a.seqlenQ)
      invariant forall i, c | 0 <= i < |os| :: os[i](c) == a.Reference().Output(i, c)
      decreases a.seqlenQ - |os|
    {
      var r := 0;
      while r < a.blockM && |os| < a.seqlenQ
        invariant 0 <= r <= a.blockM && |os| == mBlock * a.blockM + r <= a.seqlenQ
        invariant forall i, c | 0 <= i < |os| :: os[i](c) == a.Reference().Output(i, c)
        invariant r == 0 ==> |os| < a.seqlenQ
      {
        var o, _ := FwdRow(a, mBlock, r);
        os := os + [o];
        r := r + 1;
      }
      assert r == a.blockM ==> |os| == (mBlock + 1) * a.blockM;
      mBlock := mBlock + 1;
    }
    forall i, c | 0 <= i < |qs| ensures os[i](c) == layer.CausalSegment(qs, kc + kd, vc + vd)[i](c) {
      ReferenceIsCausalSegment(layer, a, qs, kc, vc, kd, vd, i, c);
    }
  }
}
