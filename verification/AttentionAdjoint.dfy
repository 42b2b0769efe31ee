/**
  The gradients of `Attention` are the true adjoint of the linearised forward pass.

  The tangent of the output is obtained from the forward definition by the rules of differentiation
  (product, quotient, and `exp' = exp`); nothing about gradients enters it. The main theorem says
  that pairing any upstream gradient with the tangent equals pairing the claimed gradients with the
  input tangents, for every direction.
 */
module AttentionAdjoint {
  import opened RealSums
  import opened ExpLogs
  import opened LinearAlgebra
  import opened Attention

  /** A direction in which queries, keys and values move. */
  datatype Direction = Direction(q: Tensor, k: Tensor, v: Tensor)

  function ScoreTangent(a: Problem, t: Direction, i: int, j: int): real {
    a.scale * (Inner(a.headdim, Row(t.q, i), Row(a.k, j)) + Inner(a.headdim, Row(a.q, i), Row(t.k, j)))
  }

  function ScoreTangents(a: Problem, t: Direction, i: int): Vector {
    j => ScoreTangent(a, t, i, j)
  }

  /** The derivative of an exponential is the exponential times the derivative of its argument. */
  function WeightTangents(a: Problem, t: Direction, i: int): Vector {
    Products(a.Weights(i), ScoreTangents(a, t, i))
  }

  function DenominatorTangent(a: Problem, t: Direction, i: int): real {
    Sum(0, a.seqlenK, WeightTangents(a, t, i))
  }

  function Numerator(a: Problem, i: int, c: int): real {
    Combination(a.seqlenK, a.Weights(i), a.v)(c)
  }

  function NumeratorTangent(a: Problem, t: Direction, i: int, c: int): real {
    Combination(a.seqlenK, WeightTangents(a, t, i), a.v)(c) + Combination(a.seqlenK, a.Weights(i), t.v)(c)
  }

  /** The quotient rule applied to numerator over denominator. */
  function OutputTangent(a: Problem, t: Direction): Tensor {
    (i, c) =>
      var den := a.Denominator(i);
      if den == 0.0 then 0.0
      else (NumeratorTangent(a, t, i, c) - Numerator(a, i, c) / den * DenominatorTangent(a, t, i)) / den
  }

  // ----- The output tangent in terms of probabilities ---------------------------------------------

  function ProbTangents(a: Problem, t: Direction, i: int): Vector {
    Products(a.Probs(i), ScoreTangents(a, t, i))
  }

  function MeanTangent(a: Problem, t: Direction, i: int): real {
    Inner(a.seqlenK, a.Probs(i), ScoreTangents(a, t, i))
  }

  lemma WeightsAreScaledProbs(a: Problem, t: Direction, i: int)
    requires a.Denominator(i) != 0.0
    ensures Agree(a.seqlenK, a.Weights(i), Scaled(a.Denominator(i), a.Probs(i)))
    ensures Agree(a.seqlenK, WeightTangents(a, t, i), Scaled(a.Denominator(i), ProbTangents(a, t, i)))
  {
    forall j | 0 <= j < a.seqlenK
      ensures a.Weights(i)(j) == Scaled(a.Denominator(i), a.Probs(i))(j)
      ensures WeightTangents(a, t, i)(j) == Scaled(a.Denominator(i), ProbTangents(a, t, i))(j)
    {
      MulAssociates(a.Denominator(i), a.Prob(i, j), ScoreTangent(a, t, i, j));
    }
  }

  lemma NumeratorScales(a: Problem, t: Direction, i: int, c: int, values: Tensor)
    requires a.Denominator(i) != 0.0
    ensures Combination(a.seqlenK, a.Weights(i), values)(c)
         == a.Denominator(i) * Combination(a.seqlenK, a.Probs(i), values)(c)
    ensures Combination(a.seqlenK, WeightTangents(a, t, i), values)(c)
         == a.Denominator(i) * Combination(a.seqlenK, ProbTangents(a, t, i), values)(c)
  {
    WeightsAreScaledProbs(a, t, i);
    hide Products, WeightTangents, ProbTangents, Scaled, Inner;
    var n, den, column := a.seqlenK, a.Denominator(i), Column(values, c);
    assert Agree(n, column, column);
    InnerCongruence(n, a.Weights(i), column, Scaled(den, a.Probs(i)), column);
    InnerCongruence(n, WeightTangents(a, t, i), column, Scaled(den, ProbTangents(a, t, i)), column);
    InnerScaled(n, den, a.Probs(i), column);
    InnerScaled(n, den, ProbTangents(a, t, i), column);
  }

  lemma DenominatorTangentScales(a: Problem, t: Direction, i: int)
    requires a.Denominator(i) != 0.0
    ensures DenominatorTangent(a, t, i) == a.Denominator(i) * MeanTangent(a, t, i)
  {
    WeightsAreScaledProbs(a, t, i);
    SumCongruence(0, a.seqlenK, WeightTangents(a, t, i), Scaled(a.Denominator(i), ProbTangents(a, t, i)));
    SumScaled(0, a.seqlenK, a.Denominator(i), ProbTangents(a, t, i));
  }

  lemma QuotientRule(den: real, x: real, o: real, s: real)
    requires den != 0.0
    ensures den * o / den == o
    ensures (den * x - o * (den * s)) / den == x - o * s
  {
    Quotient(o, den, den * o);
    assert (x - o * s) * den == den * x - o * (den * s);
    Quotient(x - o * s, den, den * x - o * (den * s));
  }

  /** The quotient rule where numerator and denominator tangents are multiples of the denominator. */
  lemma QuotientTangent(
    den: real, num: real, numT: real, denT: real, moved: real, values: real, o: real, mean: real)
    requires den != 0.0 && num == den * o && denT == den * mean && numT == den * moved + den * values
    ensures (numT - num / den * denT) / den == moved + values - o * mean
  {
    assert den * moved + den * values == den * (moved + values);
    QuotientRule(den, moved + values, o, mean);
  }

  lemma OutputTangentForm(a: Problem, t: Direction, i: int, c: int)
    requires a.Denominator(i) != 0.0
    ensures OutputTangent(a, t)(i, c)
         == Combination(a.seqlenK, ProbTangents(a, t, i), a.v)(c)
            + Combination(a.seqlenK, a.Probs(i), t.v)(c)
            - a.Output(i, c) * MeanTangent(a, t, i)
  {
    NumeratorScales(a, t, i, c, a.v);
    NumeratorScales(a, t, i, c, t.v);
    DenominatorTangentScales(a, t, i);
    hide Combination, DenominatorTangent, MeanTangent, Problem.Denominator;
    var moved := Combination(a.seqlenK, ProbTangents(a, t, i), a.v)(c);
    var values := Combination(a.seqlenK, a.Probs(i), t.v)(c);
    QuotientTangent(a.Denominator(i), Numerator(a, i, c), NumeratorTangent(a, t, i, c), DenominatorTangent(a, t, i),
                    moved, values, a.Output(i, c), MeanTangent(a, t, i));
  }

  // ----- One query row ----------------------------------------------------------------------------

  lemma GradTerm(grads: Vector, st: Vector, tangents: Vector, dps: Vector, p: real, delta: real, j: int)
    requires grads(j) == p * (dps(j) - delta) && tangents(j) == p * st(j)
    ensures Products(grads, st)(j) == Plus(Products(tangents, dps), Scaled(-delta, tangents))(j)
  {
    GradAlgebra(p, dps(j), delta, st(j));
  }

  lemma GradAlgebra(p: real, dp: real, delta: real, st: real)
    ensures p * (dp - delta) * st == p * st * dp + -delta * (p * st)
  {
  }

  lemma TermsAt(a: Problem, dout: Tensor, t: Direction, i: int, j: int)
    requires 0 <= j < a.seqlenK
    ensures a.ScoreGradsOfQuery(dout, i)(j) == a.ScoreGrad(dout, i, j)
    ensures ProbTangents(a, t, i)(j) == a.Prob(i, j) * ScoreTangents(a, t, i)(j)
  {
    hide Problem.Prob, Problem.ScoreGrad, ScoreTangent;
  }

  lemma ScoreGradProduct(a: Problem, dout: Tensor, t: Direction, i: int, j: int)
    requires 0 <= j < a.seqlenK
    ensures Products(a.ScoreGradsOfQuery(dout, i), ScoreTangents(a, t, i))(j)
         == Plus(Products(ProbTangents(a, t, i), a.ProbGrads(dout, i)),
                 Scaled(-a.Delta(dout, i), ProbTangents(a, t, i)))(j)
  {
    a.ScoreGradFromDelta(dout, i, j);
    TermsAt(a, dout, t, i, j);
    hide Products, Plus, Scaled, ProbTangents, ScoreTangents,
         Problem.Prob, Problem.ProbGrads, Problem.Delta, Problem.ScoreGrad, Problem.ScoreGradsOfQuery;
    GradTerm(a.ScoreGradsOfQuery(dout, i), ScoreTangents(a, t, i), ProbTangents(a, t, i), a.ProbGrads(dout, i),
             a.Prob(i, j), a.Delta(dout, i), j);
  }

  lemma ScoreGradProducts(a: Problem, dout: Tensor, t: Direction, i: int)
    ensures Agree(a.seqlenK, Products(a.ScoreGradsOfQuery(dout, i), ScoreTangents(a, t, i)),
                  Plus(Products(ProbTangents(a, t, i), a.ProbGrads(dout, i)),
                       Scaled(-a.Delta(dout, i), ProbTangents(a, t, i))))
  {
    forall j | 0 <= j < a.seqlenK
      ensures Products(a.ScoreGradsOfQuery(dout, i), ScoreTangents(a, t, i))(j)
           == Plus(Products(ProbTangents(a, t, i), a.ProbGrads(dout, i)),
                   Scaled(-a.Delta(dout, i), ProbTangents(a, t, i)))(j)
    {
      ScoreGradProduct(a, dout, t, i, j);
    }
  }

  /** The row's score gradients against the score tangents. */
  lemma ScoreGradPairing(a: Problem, dout: Tensor, t: Direction, i: int)
    ensures Inner(a.seqlenK, a.ScoreGradsOfQuery(dout, i), ScoreTangents(a, t, i))
         == Inner(a.seqlenK, ProbTangents(a, t, i), a.ProbGrads(dout, i))
            + -a.Delta(dout, i) * MeanTangent(a, t, i)
  {
    hide Products, ScoreTangents, Scaled, Plus, Sum, Problem.Delta, Problem.ProbGrads, Problem.ScoreGradsOfQuery;
    ScoreGradProducts(a, dout, t, i);
    var n, grads, st := a.seqlenK, a.ScoreGradsOfQuery(dout, i), ScoreTangents(a, t, i);
    var moved, minus := Products(ProbTangents(a, t, i), a.ProbGrads(dout, i)),
        Scaled(-a.Delta(dout, i), ProbTangents(a, t, i));
    SumCongruence(0, n, Products(grads, st), Plus(moved, minus));
    SumPlus(0, n, moved, minus);
    SumScaled(0, n, -a.Delta(dout, i), ProbTangents(a, t, i));
    MulCongruence(-a.Delta(dout, i), MeanTangent(a, t, i), -a.Delta(dout, i), Sum(0, n, ProbTangents(a, t, i)));
  }

  lemma NoKeyRow(a: Problem, dout: Tensor, t: Direction, i: int)
    requires a.Denominator(i) == 0.0
    ensures Inner(a.headdim, Row(dout, i), Row(OutputTangent(a, t), i)) == 0.0
    ensures Inner(a.seqlenK, a.ScoreGradsOfQuery(dout, i), ScoreTangents(a, t, i)) == 0.0
    ensures Inner(a.seqlenK, a.Probs(i), RowInners(a.headdim, Row(dout, i), t.v)) == 0.0
  {
    SumZero(0, a.headdim, Products(Row(dout, i), Row(OutputTangent(a, t), i)));
    SumZero(0, a.seqlenK, Products(a.Probs(i), RowInners(a.headdim, Row(dout, i), t.v)));
    forall j | 0 <= j < a.seqlenK ensures a.ScoreGradsOfQuery(dout, i)(j) == 0.0 {
      a.ScoreGradFromDelta(dout, i, j);
    }
    SumZero(0, a.seqlenK, Products(a.ScoreGradsOfQuery(dout, i), ScoreTangents(a, t, i)));
  }

  lemma OutputTangentRow(a: Problem, t: Direction, i: int)
    requires a.Denominator(i) != 0.0
    ensures Agree(a.headdim, Row(OutputTangent(a, t), i),
                  Plus(Plus(Combination(a.seqlenK, ProbTangents(a, t, i), a.v),
                      Combination(a.seqlenK, a.Probs(i), t.v)),
                       Scaled(-MeanTangent(a, t, i), a.OutputRow(i))))
  {
    var both := Plus(Combination(a.seqlenK, ProbTangents(a, t, i), a.v), Combination(a.seqlenK, a.Probs(i), t.v));
    var shrink := Scaled(-MeanTangent(a, t, i), a.OutputRow(i));
    forall c | 0 <= c < a.headdim
      ensures Row(OutputTangent(a, t), i)(c) == Plus(both, shrink)(c)
    {
      OutputTangentForm(a, t, i, c);
      hide Combination, MeanTangent, OutputTangent;
      assert shrink(c) == -(a.Output(i, c) * MeanTangent(a, t, i));
    }
  }

  lemma DeltaTerm(s: real, o: real, delta: real)
    requires o == delta
    ensures -s * o == -delta * s
  {
  }

  lemma RowWithKey(a: Problem, dout: Tensor, t: Direction, i: int)
    requires a.Denominator(i) != 0.0
    ensures Inner(a.headdim, Row(dout, i), Row(OutputTangent(a, t), i))
         == Inner(a.seqlenK, a.ScoreGradsOfQuery(dout, i), ScoreTangents(a, t, i))
            + Inner(a.seqlenK, a.Probs(i), RowInners(a.headdim, Row(dout, i), t.v))
  {
    OutputTangentRow(a, t, i);
    ScoreGradPairing(a, dout, t, i);
    hide Combination, MeanTangent, OutputTangent, Inner, ScoreTangents, ProbTangents, RowInners, Plus, Scaled, Row,
         Problem.Denominator, Problem.OutputRow, Problem.Probs, Problem.ProbGrads, Problem.ScoreGradsOfQuery;
    var d, n, s, up := a.headdim, a.seqlenK, MeanTangent(a, t, i), Row(dout, i);
    var moved, values := Combination(n, ProbTangents(a, t, i), a.v), Combination(n, a.Probs(i), t.v);
    InnerCongruence(d, up, Row(OutputTangent(a, t), i), up, Plus(Plus(moved, values), Scaled(-s, a.OutputRow(i))));
    InnerPlus(d, Plus(moved, values), Scaled(-s, a.OutputRow(i)), up);
    InnerPlus(d, moved, values, up);
    InnerScaled(d, -s, a.OutputRow(i), up);
    CombinationAdjoint(n, d, ProbTangents(a, t, i), up, a.v);
    CombinationAdjoint(n, d, a.Probs(i), up, t.v);
    DeltaTerm(s, Inner(d, up, a.OutputRow(i)), a.Delta(dout, i));
    hide Problem.Delta;
  }

  lemma RowAdjoint(a: Problem, dout: Tensor, t: Direction, i: int)
    ensures Inner(a.headdim, Row(dout, i), Row(OutputTangent(a, t), i))
         == Inner(a.seqlenK, a.ScoreGradsOfQuery(dout, i), ScoreTangents(a, t, i))
            + Inner(a.seqlenK, a.Probs(i), RowInners(a.headdim, Row(dout, i), t.v))
  {
    if a.Denominator(i) == 0.0 {
      NoKeyRow(a, dout, t, i);
    } else {
      RowWithKey(a, dout, t, i);
    }
  }

  /** The score gradients against the score tangents, split into the query and the key movement. */
  lemma ScoreTangentSplit(a: Problem, dout: Tensor, t: Direction, i: int)
    ensures Inner(a.seqlenK, a.ScoreGradsOfQuery(dout, i), ScoreTangents(a, t, i))
         == Inner(a.headdim, Row(a.GradQ(dout), i), Row(t.q, i))
            + a.scale * Inner(a.seqlenK, a.ScoreGradsOfQuery(dout, i), RowInners(a.headdim, Row(a.q, i), t.k))
  {
    var n, d, g := a.seqlenK, a.headdim, a.ScoreGradsOfQuery(dout, i);
    var viaQ, viaK := RowInners(d, Row(t.q, i), a.k), RowInners(d, Row(a.q, i), t.k);
    assert Agree(n, ScoreTangents(a, t, i), Scaled(a.scale, Plus(viaQ, viaK)));
    assert Agree(d, Row(a.GradQ(dout), i), Scaled(a.scale, Combination(n, g, a.k)));
    hide Inner, ScoreTangents, RowInners, Plus, Scaled, Combination;
    InnerCongruence(n, g, ScoreTangents(a, t, i), g, Scaled(a.scale, Plus(viaQ, viaK)));
    InnerScaled(n, a.scale, Plus(viaQ, viaK), g);
    InnerPlus(n, viaQ, viaK, g);
    CombinationAdjoint(n, d, g, Row(t.q, i), a.k);
    InnerCongruence(d, Row(a.GradQ(dout), i), Row(t.q, i), Scaled(a.scale, Combination(n, g, a.k)), Row(t.q, i));
    InnerScaled(d, a.scale, Combination(n, g, a.k), Row(t.q, i));
    InnerCommutes(d, Row(t.q, i), Combination(n, g, a.k));
  }

  // ----- All rows ---------------------------------------------------------------------------------

  function ScoreGrads(a: Problem, dout: Tensor): Tensor {
    (i, j) => a.ScoreGrad(dout, i, j)
  }

  function AllProbs(a: Problem): Tensor {
    (i, j) => a.Prob(i, j)
  }

  lemma GradKRow(a: Problem, dout: Tensor, t: Direction, j: int)
    ensures RowPairings(a.headdim, a.GradK(dout), t.k)(j)
         == a.scale * ColumnBilinear(a.seqlenQ, a.headdim, ScoreGrads(a, dout), a.q, t.k)(j)
  {
    var n, d, g := a.seqlenQ, a.headdim, ScoreGrads(a, dout);
    var combined := Combination(n, Column(g, j), a.q);
    forall c | 0 <= c < d ensures Row(a.GradK(dout), j)(c) == Scaled(a.scale, combined)(c) {
      InnerCongruence(n, Column(g, j), Column(a.q, c), a.ScoreGradsOfKey(dout, j), Column(a.q, c));
      assert combined(c) == Combination(n, a.ScoreGradsOfKey(dout, j), a.q)(c);
      assert a.GradK(dout)(j, c) == a.scale * combined(c);
    }
    hide Inner, Scaled;
    InnerCongruence(d, Row(a.GradK(dout), j), Row(t.k, j), Scaled(a.scale, combined), Row(t.k, j));
    InnerScaled(d, a.scale, combined, Row(t.k, j));
    InnerCommutes(d, combined, Row(t.k, j));
  }

  lemma GradKRows(a: Problem, dout: Tensor, t: Direction)
    ensures Agree(a.seqlenK, RowPairings(a.headdim, a.GradK(dout), t.k),
                  Scaled(a.scale, ColumnBilinear(a.seqlenQ, a.headdim, ScoreGrads(a, dout), a.q, t.k)))
  {
    forall j | 0 <= j < a.seqlenK
      ensures RowPairings(a.headdim, a.GradK(dout), t.k)(j)
           == Scaled(a.scale, ColumnBilinear(a.seqlenQ, a.headdim, ScoreGrads(a, dout), a.q, t.k))(j)
    {
      GradKRow(a, dout, t, j);
      hide RowPairings, ColumnBilinear;
    }
  }

  lemma GradKPairing(a: Problem, dout: Tensor, t: Direction)
    ensures a.scale * Sum(0, a.seqlenQ, RowBilinear(a.seqlenK, a.headdim, ScoreGrads(a, dout), a.q, t.k))
         == Pairing(a.seqlenK, a.headdim, a.GradK(dout), t.k)
  {
    var n, m, d, g := a.seqlenQ, a.seqlenK, a.headdim, ScoreGrads(a, dout);
    BilinearTranspose(n, m, d, g, a.q, t.k);
    GradKRows(a, dout, t);
    hide RowPairings, ColumnBilinear, Scaled;
    SumCongruence(0, m, RowPairings(d, a.GradK(dout), t.k), Scaled(a.scale, ColumnBilinear(n, d, g, a.q, t.k)));
    SumScaled(0, m, a.scale, ColumnBilinear(n, d, g, a.q, t.k));
  }

  lemma GradVRow(a: Problem, dout: Tensor, t: Direction, j: int)
    ensures RowPairings(a.headdim, a.GradV(dout), t.v)(j)
         == ColumnBilinear(a.seqlenQ, a.headdim, AllProbs(a), dout, t.v)(j)
  {
    var n, d, g := a.seqlenQ, a.headdim, AllProbs(a);
    var combined := Combination(n, Column(g, j), dout);
    forall c | 0 <= c < d ensures Row(a.GradV(dout), j)(c) == combined(c) {
      InnerCongruence(n, Column(g, j), Column(dout, c), a.ProbsOfKey(j), Column(dout, c));
      assert combined(c) == Combination(n, a.ProbsOfKey(j), dout)(c);
    }
    InnerCongruence(d, Row(a.GradV(dout), j), Row(t.v, j), combined, Row(t.v, j));
    InnerCommutes(d, combined, Row(t.v, j));
  }

  lemma GradVPairing(a: Problem, dout: Tensor, t: Direction)
    ensures Sum(0, a.seqlenQ, RowBilinear(a.seqlenK, a.headdim, AllProbs(a), dout, t.v))
         == Pairing(a.seqlenK, a.headdim, a.GradV(dout), t.v)
  {
    var n, m, d, g := a.seqlenQ, a.seqlenK, a.headdim, AllProbs(a);
    BilinearTranspose(n, m, d, g, dout, t.v);
    forall j | 0 <= j < m
      ensures RowPairings(d, a.GradV(dout), t.v)(j) == ColumnBilinear(n, d, g, dout, t.v)(j)
    {
      GradVRow(a, dout, t, j);
    }
    SumCongruence(0, m, ColumnBilinear(n, d, g, dout, t.v), RowPairings(d, a.GradV(dout), t.v));
  }

  lemma RowContribution(a: Problem, dout: Tensor, t: Direction, i: int)
    ensures RowPairings(a.headdim, dout, OutputTangent(a, t))(i)
         == RowPairings(a.headdim, a.GradQ(dout), t.q)(i)
            + a.scale * RowBilinear(a.seqlenK, a.headdim, ScoreGrads(a, dout), a.q, t.k)(i)
            + RowBilinear(a.seqlenK, a.headdim, AllProbs(a), dout, t.v)(i)
  {
    RowAdjoint(a, dout, t, i);
    ScoreTangentSplit(a, dout, t, i);
    var m, d := a.seqlenK, a.headdim;
    InnerCongruence(m, Row(ScoreGrads(a, dout), i), RowInners(d, Row(a.q, i), t.k),
                    a.ScoreGradsOfQuery(dout, i), RowInners(d, Row(a.q, i), t.k));
    InnerCongruence(m, Row(AllProbs(a), i), RowInners(d, Row(dout, i), t.v),
                    a.Probs(i), RowInners(d, Row(dout, i), t.v));
  }

  lemma RowContributions(a: Problem, dout: Tensor, t: Direction)
    ensures Agree(a.seqlenQ, RowPairings(a.headdim, dout, OutputTangent(a, t)),
                  Plus(Plus(RowPairings(a.headdim, a.GradQ(dout), t.q),
                            Scaled(a.scale, RowBilinear(a.seqlenK, a.headdim, ScoreGrads(a, dout), a.q, t.k))),
                       RowBilinear(a.seqlenK, a.headdim, AllProbs(a), dout, t.v)))
  {
    forall i | 0 <= i < a.seqlenQ
      ensures RowPairings(a.headdim, dout, OutputTangent(a, t))(i)
           == Plus(Plus(RowPairings(a.headdim, a.GradQ(dout), t.q),
                        Scaled(a.scale, RowBilinear(a.seqlenK, a.headdim, ScoreGrads(a, dout), a.q, t.k))),
                   RowBilinear(a.seqlenK, a.headdim, AllProbs(a), dout, t.v))(i)
    {
      RowContribution(a, dout, t, i);
      hide RowPairings, RowBilinear;
    }
  }

  /**
    The gradients are exact: for every upstream gradient and every direction of movement, the change
    of the paired output equals the sum of the paired changes of queries, keys and values.
   */
  lemma GradientsAreAdjoint(a: Problem, dout: Tensor, t: Direction)
    ensures Pairing(a.seqlenQ, a.headdim, dout, OutputTangent(a, t))
         == Pairing(a.seqlenQ, a.headdim, a.GradQ(dout), t.q)
            + Pairing(a.seqlenK, a.headdim, a.GradK(dout), t.k)
            + Pairing(a.seqlenK, a.headdim, a.GradV(dout), t.v)
  {
    var n, m, d := a.seqlenQ, a.seqlenK, a.headdim;
    var viaQ := RowPairings(d, a.GradQ(dout), t.q);
    var viaK := RowBilinear(m, d, ScoreGrads(a, dout), a.q, t.k);
    var viaV := RowBilinear(m, d, AllProbs(a), dout, t.v);
    RowContributions(a, dout, t);
    hide RowPairings, RowBilinear, Plus, Scaled;
    SumCongruence(0, n, RowPairings(d, dout, OutputTangent(a, t)), Plus(Plus(viaQ, Scaled(a.scale, viaK)), viaV));
    SumPlus(0, n, Plus(viaQ, Scaled(a.scale, viaK)), viaV);
    SumPlus(0, n, viaQ, Scaled(a.scale, viaK));
    SumScaled(0, n, a.scale, viaK);
    GradKPairing(a, dout, t);
    GradVPairing(a, dout, t);
  }
}
