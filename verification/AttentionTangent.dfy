/**
  That the tangents of `AttentionAdjoint` are derivatives: what moving queries, keys and values does to scores,
  weights and outputs is their tangent up to terms of second order.
 */
module AttentionTangent {
  import opened RealSums
  import opened ExpLogs
  import opened LinearAlgebra
  import opened Attention
  import opened AttentionAdjoint

  /** The problem with queries, keys and values moved in a direction. */
  function Moved(a: Problem, t: Direction): Problem {
    a.(q := (i, c) => a.q(i, c) + t.q(i, c), k := (j, c) => a.k(j, c) + t.k(j, c), v := (j, c) => a.v(j, c) + t.v(j, c))
  }

  /** A score moves by its tangent, and the product of what query and key moved by. */
  lemma ScoreMoves(a: Problem, t: Direction, i: int, j: int)
    ensures Moved(a, t).Score(i, j)
         == a.Score(i, j) + ScoreTangent(a, t, i, j) + a.scale * Inner(a.headdim, Row(t.q, i), Row(t.k, j))
  {
    var n, b := a.headdim, Moved(a, t);
    var q, k, dq, dk := Row(a.q, i), Row(a.k, j), Row(t.q, i), Row(t.k, j);
    InnerCongruence(n, Row(b.q, i), Row(b.k, j), Plus(q, dq), Plus(k, dk));
    InnerPlus(n, q, dq, Plus(k, dk));
    InnerPlus(n, k, dk, q);
    InnerPlus(n, k, dk, dq);
    hide Inner, Plus;
    ScaleFour(a.scale, Inner(n, q, k), Inner(n, q, dk), Inner(n, dq, k), Inner(n, dq, dk));
  }

  lemma ScaleFour(s: real, qk: real, qdk: real, dqk: real, dqdk: real)
    ensures (qk + qdk + (dqk + dqdk)) * s == qk * s + s * (dqk + qdk) + s * dqdk
  {
  }

  /** The exponential to the natural base lies above its tangent at zero. */
  ghost predicate NaturalBase(el: ExpLog) {
    forall x :: el.exp(x) >= 1.0 + x
  }

  /** A weight moves by its own multiple of the score's move, from below and, with the moved weight, from above. */
  lemma WeightMoves(a: Problem, t: Direction, i: int, j: int)
    requires a.el.Valid() && NaturalBase(a.el)
    ensures var d, w, w' := Moved(a, t).Score(i, j) - a.Score(i, j), a.Weight(i, j), Moved(a, t).Weight(i, j);
            w * d <= w' - w <= w' * d
  {
    hide Problem.Score;
    var s, s' := a.Score(i, j), Moved(a, t).Score(i, j);
    ExpBetween(a.el, s, s');
  }

  lemma ExpBetween(el: ExpLog, s: real, s': real)
    requires el.Valid() && NaturalBase(el)
    ensures el.exp(s) * (s' - s) <= el.exp(s') - el.exp(s) <= el.exp(s') * (s' - s)
  {
    var d := s' - s;
    el.Shift(s', s);
    el.Shift(s, s');
    el.Positive(s);
    el.Positive(s');
    assert el.exp(d) >= 1.0 + d && el.exp(s - s') >= 1.0 - d by { assert s - s' == -d; }
    hide ExpLog.Valid, NaturalBase;
    ExpBounds(el.exp(s), el.exp(s'), el.exp(d), el.exp(s - s'), d);
  }

  lemma ExpBounds(e: real, e': real, up: real, down: real, d: real)
    requires e > 0.0 && e' > 0.0 && up * e == e' && down * e' == e && up >= 1.0 + d && down >= 1.0 - d
    ensures e * d <= e' - e <= e' * d
  {
    ProductNonNegative(up - (1.0 + d), e);
    assert (up - (1.0 + d)) * e == up * e - e - e * d;
    ProductNonNegative(down - (1.0 - d), e');
    assert (down - (1.0 - d)) * e' == down * e' - e' + e' * d;
  }

  lemma ProductNonNegative(x: real, y: real)
    requires x >= 0.0 && y >= 0.0
    ensures x * y >= 0.0
  {
  }

  // ----- The output -----------------------------------------------------------------------------------

  /** What of the moves of a row's weights their tangents leave out. */
  function WeightRemainders(a: Problem, t: Direction, i: int): Vector {
    j => Moved(a, t).Weight(i, j) - a.Weight(i, j) - WeightTangents(a, t, i)(j)
  }

  function WeightMovements(a: Problem, t: Direction, i: int): Vector {
    j => Moved(a, t).Weight(i, j) - a.Weight(i, j)
  }

  /** The denominator moves by its tangent and the remainders. */
  lemma DenominatorMoves(a: Problem, t: Direction, i: int)
    ensures Moved(a, t).Denominator(i)
         == a.Denominator(i) + DenominatorTangent(a, t, i) + Sum(0, a.seqlenK, WeightRemainders(a, t, i))
  {
    var n, b := a.seqlenK, Moved(a, t);
    hide Problem.Weight, WeightTangents, Sum;
    var known := Plus(a.Weights(i), WeightTangents(a, t, i));
    SumAdd(0, n, known, WeightRemainders(a, t, i), b.Weights(i));
    SumPlus(0, n, a.Weights(i), WeightTangents(a, t, i));
  }

  /** So does the numerator, which also gains the moves of the weights times the moves of the values. */
  lemma NumeratorMoves(a: Problem, t: Direction, i: int, c: int)
    ensures Numerator(Moved(a, t), i, c)
         == Numerator(a, i, c) + NumeratorTangent(a, t, i, c)
            + Inner(a.seqlenK, WeightRemainders(a, t, i), Column(a.v, c))
            + Inner(a.seqlenK, WeightMovements(a, t, i), Column(t.v, c))
  {
    var n, b := a.seqlenK, Moved(a, t);
    var w, w', dw, r := a.Weights(i), b.Weights(i), WeightTangents(a, t, i), WeightRemainders(a, t, i);
    var v, dv := Column(a.v, c), Column(t.v, c);
    hide Problem.Weight, WeightTangents, Inner;
    InnerCongruence(n, w', Column(b.v, c), w', Plus(v, dv));
    InnerPlus(n, v, dv, w');
    InnerCongruence(n, w', v, Plus(Plus(w, dw), r), v);
    InnerPlus(n, Plus(w, dw), r, v);
    InnerPlus(n, w, dw, v);
    InnerCongruence(n, w', dv, Plus(w, WeightMovements(a, t, i)), dv);
    InnerPlus(n, w, WeightMovements(a, t, i), dv);
  }

  /**
    The output moves by its tangent: exactly, once moved and unmoved denominators are put in place of each
    other, and up to the remainders.
   */
  lemma OutputMoves(a: Problem, t: Direction, i: int, c: int)
    requires a.Denominator(i) != 0.0 && Moved(a, t).Denominator(i) != 0.0
    ensures (Moved(a, t).Output(i, c) - a.Output(i, c)) * Moved(a, t).Denominator(i)
         == OutputTangent(a, t)(i, c) * a.Denominator(i)
            + Inner(a.seqlenK, WeightRemainders(a, t, i), Column(a.v, c))
            + Inner(a.seqlenK, WeightMovements(a, t, i), Column(t.v, c))
            - a.Output(i, c) * Sum(0, a.seqlenK, WeightRemainders(a, t, i))
  {
    hide Inner, Sum, Problem.Denominator, Problem.Output, Moved, Numerator, NumeratorTangent, DenominatorTangent,
         OutputTangent, WeightRemainders, WeightMovements;
    OutputIsQuotient(a, i, c);
    OutputIsQuotient(Moved(a, t), i, c);
    DenominatorMoves(a, t, i);
    NumeratorMoves(a, t, i, c);
    TangentForm(a, t, i, c);
    QuotientMoves(a.Denominator(i), Moved(a, t).Denominator(i), Numerator(a, i, c), Numerator(Moved(a, t), i, c),
                  a.Output(i, c), Moved(a, t).Output(i, c), DenominatorTangent(a, t, i), NumeratorTangent(a, t, i, c),
                  OutputTangent(a, t)(i, c), Sum(0, a.seqlenK, WeightRemainders(a, t, i)),
                  Inner(a.seqlenK, WeightRemainders(a, t, i), Column(a.v, c))
                  + Inner(a.seqlenK, WeightMovements(a, t, i), Column(t.v, c)));
  }

  lemma OutputIsQuotient(a: Problem, i: int, c: int)
    requires a.Denominator(i) != 0.0
    ensures a.Output(i, c) == Numerator(a, i, c) / a.Denominator(i)
  {
    a.OutputFromWeights(i, c);
  }

  lemma TangentForm(a: Problem, t: Direction, i: int, c: int)
    requires a.Denominator(i) != 0.0
    ensures OutputTangent(a, t)(i, c)
         == (NumeratorTangent(a, t, i, c) - a.Output(i, c) * DenominatorTangent(a, t, i)) / a.Denominator(i)
  {
    OutputIsQuotient(a, i, c);
    hide Problem.Denominator, Problem.Output, Numerator, NumeratorTangent, DenominatorTangent;
    MulCongruence(a.Output(i, c), DenominatorTangent(a, t, i),
                  Numerator(a, i, c) / a.Denominator(i), DenominatorTangent(a, t, i));
  }

  lemma QuotientMoves(den: real, den': real, num: real, num': real, o: real, o': real, dDen: real, dNum: real,
                      dO: real, rDen: real, rNum: real)
    requires den != 0.0 && den' != 0.0 && o == num / den && o' == num' / den'
    requires den' == den + dDen + rDen && num' == num + dNum + rNum && dO == (dNum - o * dDen) / den
    ensures (o' - o) * den' == dO * den + rNum - o * rDen
  {
    CancelDivision(num, den, o);
    CancelDivision(num', den', o');
    CancelDivision(dNum - o * dDen, den, dO);
    MovedProducts(den, o, o', dDen, rDen);
  }

  lemma CancelDivision(x: real, y: real, q: real)
    requires y != 0.0 && q == x / y
    ensures q * y == x
  {
  }

  lemma MovedProducts(den: real, o: real, o': real, dDen: real, rDen: real)
    ensures (o' - o) * (den + dDen + rDen) == o' * (den + dDen + rDen) - o * den - o * dDen - o * rDen
  {
  }
}
