/**
  What attention means: masked softmax, its output, and the gradients of the output.

  These definitions never mention tiles, running maxima or recomputation. The kernels are proved
  against them.
 */
module Attention {
  import opened RealSums
  import opened ExpLogs
  import opened LinearAlgebra

  /**
    One head of one sequence. `bias` is added to the scaled scores; `allowed(i, j)` says whether
    query `i` may attend to key `j`, for keys within `seqlenK`.
   */
  datatype Problem = Problem(
    el: ExpLog,
    seqlenQ: nat, seqlenK: nat, headdim: nat,
    scale: real,
    q: Tensor, k: Tensor, v: Tensor, bias: Tensor,
    allowed: (int, int) -> bool)
  {
    function Score(i: int, j: int): real {
      Inner(headdim, Row(q, i), Row(k, j)) * scale + bias(i, j)
    }

    /** The unnormalised softmax weight; masked keys have weight zero. */
    function Weight(i: int, j: int): real {
      if 0 <= j < seqlenK && allowed(i, j) then el.exp(Score(i, j)) else 0.0
    }

    function Weights(i: int): Vector {
      j => Weight(i, j)
    }

    function Denominator(i: int): real {
      Sum(0, seqlenK, Weights(i))
    }

    ghost predicate HasKey(i: int) {
      exists j :: 0 <= j < seqlenK && allowed(i, j)
    }

    /** The softmax probability; a row without keys has all probabilities zero. */
    function Prob(i: int, j: int): real {
      if Denominator(i) == 0.0 then 0.0 else Weight(i, j) / Denominator(i)
    }

    function Probs(i: int): Vector {
      j => Prob(i, j)
    }

    function ProbsOfKey(j: int): Vector {
      i => Prob(i, j)
    }

    function Output(i: int, c: int): real {
      Combination(seqlenK, Probs(i), v)(c)
    }

    function OutputRow(i: int): Vector {
      c => Output(i, c)
    }

    function Lse(i: int): real {
      el.log(Denominator(i))
    }

    lemma WeightNonNegative(i: int, j: int)
      requires el.Valid()
      ensures Weight(i, j) >= 0.0
    {
      el.Positive(Score(i, j));
    }

    /** The denominator is positive exactly for the rows that have a key. */
    lemma DenominatorPositive(i: int)
      requires el.Valid()
      ensures Denominator(i) >= 0.0
      ensures Denominator(i) > 0.0 <==> HasKey(i)
    {
      forall j | 0 <= j < seqlenK ensures Weights(i)(j) >= 0.0 {
        WeightNonNegative(i, j);
      }
      SumNonNegative(0, seqlenK, Weights(i));
      if HasKey(i) {
        var j :| 0 <= j < seqlenK && allowed(i, j);
        el.Positive(Score(i, j));
        SumAtLeast(0, seqlenK, Weights(i), j);
      } else {
        SumZero(0, seqlenK, Weights(i));
      }
    }

    lemma ProbSign(i: int, j: int)
      requires el.Valid() && HasKey(i)
      ensures Denominator(i) > 0.0 && Prob(i, j) == (1.0 / Denominator(i)) * Weight(i, j)
      ensures Prob(i, j) >= 0.0
      ensures 0 <= j < seqlenK ==> (Prob(i, j) > 0.0 <==> allowed(i, j))
    {
      DenominatorPositive(i);
      WeightNonNegative(i, j);
      el.Positive(Score(i, j));
      DivideIsScale(Weight(i, j), Denominator(i));
      DivideSign(Weight(i, j), Denominator(i));
    }

    /** A row with a key is a probability distribution over its allowed keys. */
    lemma ProbsSumToOne(i: int)
      requires el.Valid() && HasKey(i)
      ensures Sum(0, seqlenK, Probs(i)) == 1.0
      ensures forall j | 0 <= j < seqlenK :: Prob(i, j) >= 0.0 && (Prob(i, j) > 0.0 <==> allowed(i, j))
    {
      hide HasKey, Sum, Weight, Prob, Denominator;
      DenominatorIsSum(i);
      var scale := 1.0 / Denominator(i);
      forall j | 0 <= j < seqlenK
        ensures Probs(i)(j) == scale * Weights(i)(j)
        ensures Prob(i, j) >= 0.0 && (Prob(i, j) > 0.0 <==> allowed(i, j))
      {
        ProbSign(i, j);
      }
      SumScale(0, seqlenK, scale, Weights(i), Probs(i));
      DivideIsScale(1.0, Denominator(i));
    }

    lemma DenominatorIsSum(i: int)
      requires el.Valid() && HasKey(i)
      ensures Sum(0, seqlenK, Weights(i)) == Denominator(i) > 0.0
    {
      DenominatorPositive(i);
    }

    /** Probabilities are the exponentials of the scores taken relative to the log-sum-exp. */
    lemma ProbFromLse(i: int, j: int)
      requires el.Valid() && HasKey(i) && 0 <= j < seqlenK && allowed(i, j)
      ensures Prob(i, j) == el.exp(Score(i, j) - Lse(i))
    {
      DenominatorPositive(i);
      el.ExpOfLog(Denominator(i));
      el.Shift(Score(i, j), Lse(i));
      Quotient(el.exp(Score(i, j) - Lse(i)), Denominator(i), Weight(i, j));
    }

    /** The output is the weighted sum of values over the denominator. */
    lemma OutputFromWeights(i: int, c: int)
      requires Denominator(i) != 0.0
      ensures Output(i, c) == Inner(seqlenK, Weights(i), Column(v, c)) / Denominator(i)
    {
      var den := Denominator(i);
      forall j | 0 <= j < seqlenK ensures Weights(i)(j) == Scaled(den, Probs(i))(j) {
      }
      hide Inner, Scaled;
      InnerCongruence(seqlenK, Weights(i), Column(v, c), Scaled(den, Probs(i)), Column(v, c));
      InnerScaled(seqlenK, den, Probs(i), Column(v, c));
      Quotient(Output(i, c), den, den * Output(i, c));
    }

    lemma MaskedProb(i: int, j: int)
      requires !(0 <= j < seqlenK && allowed(i, j))
      ensures Prob(i, j) == 0.0
    {
    }

    // ----- Gradients ------------------------------------------------------------------------------

    /** The gradient of the output with respect to probability `(i, k)`: `dout` row times value row. */
    function ProbGrads(dout: Tensor, i: int): Vector {
      RowInners(headdim, Row(dout, i), v)
    }

    /** One term of the softmax Jacobian transposed applied to the probability gradients. */
    function JacobianTerms(dout: Tensor, i: int, j: int): Vector {
      k => ProbGrads(dout, i)(k) * (Prob(i, k) * ((if k == j then 1.0 else 0.0) - Prob(i, j)))
    }

    /** The gradient with respect to score `(i, j)`, by the chain rule through the softmax Jacobian. */
    function ScoreGrad(dout: Tensor, i: int, j: int): real {
      Sum(0, seqlenK, JacobianTerms(dout, i, j))
    }

    function ScoreGradsOfQuery(dout: Tensor, i: int): Vector {
      j => ScoreGrad(dout, i, j)
    }

    function ScoreGradsOfKey(dout: Tensor, j: int): Vector {
      i => ScoreGrad(dout, i, j)
    }

    function GradQ(dout: Tensor): Tensor {
      (i, c) => scale * Combination(seqlenK, ScoreGradsOfQuery(dout, i), k)(c)
    }

    function GradK(dout: Tensor): Tensor {
      (j, c) => scale * Combination(seqlenQ, ScoreGradsOfKey(dout, j), q)(c)
    }

    function GradV(dout: Tensor): Tensor {
      (j, c) => Combination(seqlenQ, ProbsOfKey(j), dout)(c)
    }

    /** The row sum of `dout` times the output, computed by the backward preprocess kernels. */
    function Delta(dout: Tensor, i: int): real {
      Inner(headdim, Row(dout, i), OutputRow(i))
    }

    /** `Delta` is the probability-weighted mean of the probability gradients. */
    lemma DeltaIsMean(dout: Tensor, i: int)
      ensures Delta(dout, i) == Inner(seqlenK, Probs(i), ProbGrads(dout, i))
    {
      CombinationAdjoint(seqlenK, headdim, Probs(i), Row(dout, i), v);
      InnerCongruence(headdim, Row(dout, i), OutputRow(i), Row(dout, i), Combination(seqlenK, Probs(i), v));
    }

    function DiagonalTerms(dout: Tensor, i: int, j: int): Vector {
      k => if k == j then ProbGrads(dout, i)(j) * Prob(i, j) else 0.0
    }

    function MeanTerms(dout: Tensor, i: int, j: int): Vector {
      k => -Prob(i, j) * Products(Probs(i), ProbGrads(dout, i))(k)
    }

    lemma JacobianSplits(dout: Tensor, i: int, j: int, k: int)
      ensures JacobianTerms(dout, i, j)(k) == DiagonalTerms(dout, i, j)(k) + MeanTerms(dout, i, j)(k)
    {
      var dp, pk, p := ProbGrads(dout, i)(k), Prob(i, k), Prob(i, j);
      JacobianEntry(dp, pk, p);
      if k == j {
        assert JacobianTerms(dout, i, j)(k) == dp * (pk * (1.0 - p));
      } else {
        assert JacobianTerms(dout, i, j)(k) == dp * (pk * (0.0 - p));
      }
      assert Products(Probs(i), ProbGrads(dout, i))(k) == pk * dp;
    }

    lemma JacobianSum(dout: Tensor, i: int, j: int)
      ensures ScoreGrad(dout, i, j)
           == Sum(0, seqlenK, DiagonalTerms(dout, i, j)) + Sum(0, seqlenK, MeanTerms(dout, i, j))
    {
      forall k | 0 <= k < seqlenK
        ensures JacobianTerms(dout, i, j)(k) == DiagonalTerms(dout, i, j)(k) + MeanTerms(dout, i, j)(k)
      {
        JacobianSplits(dout, i, j, k);
      }
      SumAdd(0, seqlenK, DiagonalTerms(dout, i, j), MeanTerms(dout, i, j), JacobianTerms(dout, i, j));
    }

    lemma MeanSum(dout: Tensor, i: int, j: int)
      ensures Sum(0, seqlenK, MeanTerms(dout, i, j)) == -Prob(i, j) * Delta(dout, i)
    {
      hide Prob, Products, ProbGrads;
      SumScale(0, seqlenK, -Prob(i, j), Products(Probs(i), ProbGrads(dout, i)), MeanTerms(dout, i, j));
      DeltaIsMean(dout, i);
      hide Delta, MeanTerms, Sum;
    }

    /** The form every backward kernel uses agrees with the chain rule through the Jacobian. */
    lemma ScoreGradFromDelta(dout: Tensor, i: int, j: int)
      requires 0 <= j < seqlenK
      ensures ScoreGrad(dout, i, j) == Prob(i, j) * (ProbGrads(dout, i)(j) - Delta(dout, i))
    {
      JacobianSum(dout, i, j);
      SumSingle(0, seqlenK, DiagonalTerms(dout, i, j), j);
      MeanSum(dout, i, j);
      FactorOut(ProbGrads(dout, i)(j), Prob(i, j), Delta(dout, i));
    }

    lemma MaskedScoreGrad(dout: Tensor, i: int, j: int)
      requires 0 <= j < seqlenK && !allowed(i, j)
      ensures ScoreGrad(dout, i, j) == 0.0
    {
      ScoreGradFromDelta(dout, i, j);
    }
  }

  lemma JacobianEntry(dp: real, pk: real, p: real)
    ensures dp * (pk * (0.0 - p)) == 0.0 + -p * (pk * dp)
    ensures dp * (pk * (1.0 - p)) == dp * pk + -p * (pk * dp)
  {
  }

  lemma FactorOut(dp: real, p: real, mean: real)
    ensures dp * p + -p * mean == p * (dp - mean)
  {
  }

  lemma DivideIsScale(a: real, b: real)
    requires b != 0.0
    ensures a / b == (1.0 / b) * a
    ensures (1.0 / b) * b == 1.0
  {
  }

  lemma DivideSign(a: real, b: real)
    requires b > 0.0
    ensures a >= 0.0 ==> a / b >= 0.0
    ensures a > 0.0 ==> a / b > 0.0
    ensures a == 0.0 ==> a / b == 0.0
  {
  }

  lemma Quotient(x: real, b: real, a: real)
    requires b != 0.0 && x * b == a
    ensures x == a / b
  {
    assert a / b * b == a;
    assert (a / b - x) * b == 0.0;
  }
}
