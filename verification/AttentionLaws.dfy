/**
  What `Attention.Problem` computes, said without its definitions: how weights answer to biases and keys,
  and which numbers probabilities, output and log-sum-exp have to be.
 */
module AttentionLaws {
  import opened RealSums
  import opened ExpLogs
  import opened LinearAlgebra
  import opened Attention

  // ----- How weights move -----------------------------------------------------------------------------

  /** The same problem but for the biases. */
  ghost predicate EqualButForBias(a: Problem, b: Problem) {
    && b == a.(bias := b.bias, allowed := b.allowed)
    && forall i, j :: b.allowed(i, j) <==> a.allowed(i, j)
  }

  /** Raising a pair's bias by `x` multiplies its weight by `exp(x)`. */
  lemma BiasScalesWeight(a: Problem, b: Problem, i: int, j: int, x: real)
    requires a.el.Valid() && EqualButForBias(a, b) && b.bias(i, j) == a.bias(i, j) + x
    ensures b.Weight(i, j) == a.el.exp(x) * a.Weight(i, j)
  {
    a.el.Sum(x, a.Score(i, j));
    hide Inner;
    assert b.Score(i, j) == x + a.Score(i, j);
  }

  /** Moving a key by `t` multiplies its weight by the exponential of the scaled inner product with `t`. */
  lemma KeyScalesWeight(a: Problem, b: Problem, i: int, j: int, t: Vector)
    requires a.el.Valid() && b == a.(k := b.k) && forall c | 0 <= c < a.headdim :: b.k(j, c) == a.k(j, c) + t(c)
    ensures b.Weight(i, j) == a.el.exp(a.scale * Inner(a.headdim, Row(a.q, i), t)) * a.Weight(i, j)
  {
    var x := a.scale * Inner(a.headdim, Row(a.q, i), t);
    InnerCongruence(a.headdim, Row(a.q, i), Row(b.k, j), Row(a.q, i), Plus(Row(a.k, j), t));
    InnerPlus(a.headdim, Row(a.k, j), t, Row(a.q, i));
    hide Inner, Plus;
    a.el.Sum(x, a.Score(i, j));
    assert b.Score(i, j) == x + a.Score(i, j) by {
      ScaleDistributes(a.scale, Inner(a.headdim, Row(a.q, i), Row(a.k, j)), Inner(a.headdim, Row(a.q, i), t));
    }
  }

  lemma ScaleDistributes(scale: real, x: real, y: real)
    ensures (x + y) * scale == x * scale + scale * y
  {
  }

  /** A visible key of zeros without bias weighs one, and a key that is not visible nothing. */
  lemma ZeroKeyWeighsOne(a: Problem, i: int, j: int)
    requires a.el.Valid() && a.bias(i, j) == 0.0 && forall c | 0 <= c < a.headdim :: a.k(j, c) == 0.0
    ensures a.Weight(i, j) == if 0 <= j < a.seqlenK && a.allowed(i, j) then 1.0 else 0.0
  {
    SumZero(0, a.headdim, Products(Row(a.q, i), Row(a.k, j)));
  }

  // ----- Biases reweight probabilities ----------------------------------------------------------------

  /** The exponentials of `x`, times the probabilities of a row. */
  function Reweighted(a: Problem, x: Vector, i: int): Vector {
    j => a.el.exp(x(j)) * a.Prob(i, j)
  }

  /** Raising the biases of a row by `x` multiplies its probabilities by `exp(x)`, up to their new total. */
  lemma BiasReweights(a: Problem, b: Problem, i: int, x: Vector)
    requires a.el.Valid() && a.HasKey(i) && EqualButForBias(a, b)
    requires forall j | 0 <= j < a.seqlenK :: b.bias(i, j) == a.bias(i, j) + x(j)
    ensures b.HasKey(i)
    ensures Sum(0, a.seqlenK, Reweighted(a, x, i)) > 0.0
    ensures forall j | 0 <= j < a.seqlenK ::
              b.Prob(i, j) * Sum(0, a.seqlenK, Reweighted(a, x, i)) == a.el.exp(x(j)) * a.Prob(i, j)
  {
    hide Problem.HasKey, Sum, Reweighted, Problem.Prob, ExpLog.Valid;
    forall j | 0 <= j < a.seqlenK
      ensures b.Prob(i, j) * Sum(0, a.seqlenK, Reweighted(a, x, i)) == a.el.exp(x(j)) * a.Prob(i, j)
    {
      BiasedProb(a, b, i, x, j);
    }
    assert b.HasKey(i) && Sum(0, a.seqlenK, Reweighted(a, x, i)) > 0.0 by { BiasedTotal(a, b, i, x); }
  }

  /** So the odds of two keys move by the exponential of the difference of what was added. */
  lemma BiasMovesOdds(a: Problem, b: Problem, i: int, x: Vector, j: int, k: int)
    requires a.el.Valid() && a.HasKey(i) && EqualButForBias(a, b) && 0 <= j < a.seqlenK && 0 <= k < a.seqlenK
    requires forall j | 0 <= j < a.seqlenK :: b.bias(i, j) == a.bias(i, j) + x(j)
    ensures b.Prob(i, j) * a.Prob(i, k) == a.el.exp(x(j) - x(k)) * (b.Prob(i, k) * a.Prob(i, j))
  {
    hide ExpLog.Valid, Problem.HasKey, Sum, Problem.Prob, Problem.Denominator, Reweighted;
    var z := Sum(0, a.seqlenK, Reweighted(a, x, i));
    assert z > 0.0 by { BiasedTotal(a, b, i, x); }
    BiasedProb(a, b, i, x, j);
    BiasedProb(a, b, i, x, k);
    a.el.Shift(x(j), x(k));
    a.el.Positive(x(k));
    OddsAlgebra(z, b.Prob(i, j), b.Prob(i, k), a.Prob(i, j), a.Prob(i, k),
                a.el.exp(x(j)), a.el.exp(x(k)), a.el.exp(x(j) - x(k)));
  }

  lemma OddsAlgebra(z: real, bj: real, bk: real, aj: real, ak: real, ej: real, ek: real, e: real)
    requires z > 0.0 && ek > 0.0 && bj * z == ej * aj && bk * z == ek * ak && e * ek == ej
    ensures bj * ak == e * (bk * aj)
  {
    assert bj * ak * z == ak * (bj * z);
    assert e * (bk * aj) * z == e * aj * (bk * z);
    assert e * aj * (ek * ak) == e * ek * (aj * ak);
    assert bj * ak * z == e * (bk * aj) * z;
    assert (bj * ak - e * (bk * aj)) * z == 0.0;
  }

  /** And the output becomes the combination with the reweighted probabilities. */
  lemma BiasReweightsOutput(a: Problem, b: Problem, i: int, x: Vector, c: int)
    requires a.el.Valid() && a.HasKey(i) && EqualButForBias(a, b)
    requires forall j | 0 <= j < a.seqlenK :: b.bias(i, j) == a.bias(i, j) + x(j)
    ensures Sum(0, a.seqlenK, Reweighted(a, x, i)) > 0.0
    ensures b.Output(i, c) * Sum(0, a.seqlenK, Reweighted(a, x, i))
         == Inner(a.seqlenK, Reweighted(a, x, i), Column(a.v, c))
  {
    hide ExpLog.Valid, Problem.HasKey, Sum, Problem.Prob, Problem.Denominator, Reweighted, Inner;
    var z := Sum(0, a.seqlenK, Reweighted(a, x, i));
    assert z > 0.0 by { BiasedTotal(a, b, i, x); }
    forall j | 0 <= j < a.seqlenK ensures Reweighted(a, x, i)(j) == Scaled(z, b.Probs(i))(j) {
      BiasedEntry(a, b, i, x, j);
    }
    hide Scaled, Problem.Probs;
    InnerCongruence(a.seqlenK, Reweighted(a, x, i), Column(a.v, c), Scaled(z, b.Probs(i)), Column(a.v, c));
    InnerScaled(a.seqlenK, z, b.Probs(i), Column(a.v, c));
    OutputForm(b, i, c);
  }

  lemma OutputForm(a: Problem, i: int, c: int)
    ensures a.Output(i, c) == Inner(a.seqlenK, a.Probs(i), Column(a.v, c))
  {
  }

  lemma BiasedEntry(a: Problem, b: Problem, i: int, x: Vector, j: int)
    requires a.el.Valid() && a.HasKey(i) && EqualButForBias(a, b) && 0 <= j < a.seqlenK
    requires forall j | 0 <= j < a.seqlenK :: b.bias(i, j) == a.bias(i, j) + x(j)
    ensures Reweighted(a, x, i)(j) == Scaled(Sum(0, a.seqlenK, Reweighted(a, x, i)), b.Probs(i))(j)
  {
    hide ExpLog.Valid, Problem.HasKey, Sum, Problem.Prob;
    BiasedProb(a, b, i, x, j);
    ReweightedAt(a, x, i, j);
  }

  lemma BiasedTotal(a: Problem, b: Problem, i: int, x: Vector)
    requires a.el.Valid() && a.HasKey(i) && EqualButForBias(a, b)
    requires forall j | 0 <= j < a.seqlenK :: b.bias(i, j) == a.bias(i, j) + x(j)
    ensures b.HasKey(i) && a.Denominator(i) > 0.0
    ensures Sum(0, a.seqlenK, Reweighted(a, x, i)) > 0.0
    ensures b.Denominator(i) == a.Denominator(i) * Sum(0, a.seqlenK, Reweighted(a, x, i)) > 0.0
  {
    b.DenominatorPositive(i);
    a.DenominatorPositive(i);
    hide Problem.HasKey, Sum, Reweighted, ExpLog.Valid, Problem.Denominator;
    BiasDenominator(a, b, i, x);
    PositiveFactorOf(a.Denominator(i), Sum(0, a.seqlenK, Reweighted(a, x, i)));
  }

  lemma BiasedProb(a: Problem, b: Problem, i: int, x: Vector, j: int)
    requires a.el.Valid() && a.HasKey(i) && EqualButForBias(a, b) && 0 <= j < a.seqlenK
    requires forall j | 0 <= j < a.seqlenK :: b.bias(i, j) == a.bias(i, j) + x(j)
    ensures b.Prob(i, j) * Sum(0, a.seqlenK, Reweighted(a, x, i)) == a.el.exp(x(j)) * a.Prob(i, j)
  {
    hide Problem.HasKey, Sum, Reweighted, ExpLog.Valid, Problem.Denominator, Problem.Weight, Problem.Prob;
    var z := Sum(0, a.seqlenK, Reweighted(a, x, i));
    BiasedTotal(a, b, i, x);
    BiasedWeight(a, b, i, x, j);
    ProbForm(b, i, j);
    ReweightedProb(a.Denominator(i), z, b.Weight(i, j), b.Prob(i, j), Reweighted(a, x, i)(j));
    ReweightedAt(a, x, i, j);
  }

  lemma ProbForm(a: Problem, i: int, j: int)
    requires a.Denominator(i) > 0.0
    ensures a.Prob(i, j) == a.Weight(i, j) / a.Denominator(i)
  {
  }

  lemma BiasedWeight(a: Problem, b: Problem, i: int, x: Vector, j: int)
    requires a.el.Valid() && a.Denominator(i) > 0.0 && EqualButForBias(a, b)
    requires b.bias(i, j) == a.bias(i, j) + x(j)
    ensures b.Weight(i, j) == a.Denominator(i) * Reweighted(a, x, i)(j)
  {
    BiasScalesWeight(a, b, i, j, x(j));
    ProbForm(a, i, j);
    ReweightedAt(a, x, i, j);
    hide Problem.Weight, Problem.Denominator, Problem.Prob, Reweighted, ExpLog.Valid;
    ReweightedTerm(a.Denominator(i), a.Prob(i, j), a.Weight(i, j), a.el.exp(x(j)));
  }

  lemma BiasDenominator(a: Problem, b: Problem, i: int, x: Vector)
    requires a.el.Valid() && a.Denominator(i) > 0.0 && EqualButForBias(a, b)
    requires forall j | 0 <= j < a.seqlenK :: b.bias(i, j) == a.bias(i, j) + x(j)
    ensures b.Denominator(i) == a.Denominator(i) * Sum(0, a.seqlenK, Reweighted(a, x, i))
  {
    hide Sum, ExpLog.Valid, Reweighted, Problem.Weight;
    forall j | 0 <= j < a.seqlenK ensures b.Weights(i)(j) == a.Denominator(i) * Reweighted(a, x, i)(j) {
      BiasedWeight(a, b, i, x, j);
    }
    SumScale(0, a.seqlenK, a.Denominator(i), Reweighted(a, x, i), b.Weights(i));
  }

  lemma ReweightedAt(a: Problem, x: Vector, i: int, j: int)
    ensures Reweighted(a, x, i)(j) == a.el.exp(x(j)) * a.Prob(i, j)
  {
  }

  lemma ReweightedTerm(den: real, prob: real, weight: real, e: real)
    requires den > 0.0 && prob == weight / den
    ensures den * (e * prob) == e * weight
  {
    assert prob * den == weight;
    assert den * (e * prob) == e * (prob * den);
  }

  lemma ReweightedProb(den: real, total: real, weight: real, prob: real, term: real)
    requires den > 0.0 && den * total > 0.0 && prob == weight / (den * total) && weight == den * term
    ensures prob * total == term
  {
    assert prob * (den * total) == den * term;
    assert den * (prob * total) == den * term;
  }

  lemma PositiveFactorOf(den: real, total: real)
    requires den > 0.0 && den * total > 0.0
    ensures total > 0.0
  {
  }

  // ----- There is only one softmax --------------------------------------------------------------------

  function Visible(visible: int -> bool, e: Vector): Vector {
    j => if visible(j) then e(j) else 0.0
  }

  /**
    Numbers that vanish on invisible keys, add up to one, and stand in the proportion of `e` elsewhere,
    are `e` over its sum.
   */
  lemma OnlySoftmax(n: nat, visible: int -> bool, e: Vector, w: Vector, k: int)
    requires 0 <= k < n && visible(k)
    requires forall j | 0 <= j < n && !visible(j) :: w(j) == 0.0
    requires Sum(0, n, w) == 1.0
    requires forall j | 0 <= j < n && visible(j) :: w(j) * e(k) == w(k) * e(j)
    ensures w(k) * Sum(0, n, Visible(visible, e)) == e(k)
  {
    hide Sum;
    forall j | 0 <= j < n ensures Scaled(e(k), w)(j) == Scaled(w(k), Visible(visible, e))(j) {
    }
    hide Scaled, Visible;
    SumCongruence(0, n, Scaled(e(k), w), Scaled(w(k), Visible(visible, e)));
    SumScaled(0, n, e(k), w);
    SumScaled(0, n, w(k), Visible(visible, e));
  }

  lemma ScoreForm(a: Problem, i: int)
    ensures forall j :: a.Score(i, j) == Inner(a.headdim, Row(a.q, i), Row(a.k, j)) * a.scale + a.bias(i, j)
  {
    hide Inner;
  }

  /** Probabilities stand in the proportion of the exponentials of their scores. */
  lemma ProbsInProportion(a: Problem, i: int, j: int, k: int)
    requires a.el.Valid() && a.HasKey(i)
    requires 0 <= j < a.seqlenK && 0 <= k < a.seqlenK && a.allowed(i, j) && a.allowed(i, k)
    ensures a.Prob(i, j) * a.el.exp(a.Score(i, k)) == a.Prob(i, k) * a.el.exp(a.Score(i, j))
  {
    a.DenominatorPositive(i);
    hide Problem.HasKey, Problem.Score, Problem.Denominator;
    CrossRatio(a.Denominator(i), a.Weight(i, j), a.Weight(i, k));
  }

  /** The probabilities of a row are such numbers for its scaled inner products plus biases. */
  lemma ProbsAreSoftmax(a: Problem, i: int, logit: Vector)
    requires a.el.Valid() && a.HasKey(i)
    requires forall j | 0 <= j < a.seqlenK ::
               logit(j) == Inner(a.headdim, Row(a.q, i), Row(a.k, j)) * a.scale + a.bias(i, j)
    ensures forall j | 0 <= j < a.seqlenK && !a.allowed(i, j) :: a.Prob(i, j) == 0.0
    ensures Sum(0, a.seqlenK, a.Probs(i)) == 1.0
    ensures forall j, k | 0 <= j < a.seqlenK && 0 <= k < a.seqlenK && a.allowed(i, j) && a.allowed(i, k) ::
              a.Prob(i, j) * a.el.exp(logit(k)) == a.Prob(i, k) * a.el.exp(logit(j))
    ensures forall j | 0 <= j < a.seqlenK && a.allowed(i, j) :: a.Prob(i, j) == a.el.exp(logit(j) - a.Lse(i))
  {
    ScoreForm(a, i);
    hide Inner, Sum, ExpLog.Valid, Problem.HasKey, Problem.Prob, Problem.Lse, Problem.Score;
    assert forall j | 0 <= j < a.seqlenK :: logit(j) == a.Score(i, j);
    a.ProbsSumToOne(i);
    forall j | 0 <= j < a.seqlenK && !a.allowed(i, j) ensures a.Prob(i, j) == 0.0 {
      a.MaskedProb(i, j);
    }
    forall j | 0 <= j < a.seqlenK && a.allowed(i, j) ensures a.Prob(i, j) == a.el.exp(logit(j) - a.Lse(i)) {
      a.ProbFromLse(i, j);
    }
    forall j, k | 0 <= j < a.seqlenK && 0 <= k < a.seqlenK && a.allowed(i, j) && a.allowed(i, k)
      ensures a.Prob(i, j) * a.el.exp(logit(k)) == a.Prob(i, k) * a.el.exp(logit(j))
    {
      ProbsInProportion(a, i, j, k);
    }
  }

  lemma CrossRatio(den: real, x: real, y: real)
    requires den > 0.0
    ensures x / den * y == y / den * x
  {
    var u, v := x / den, y / den;
    assert u * den == x && v * den == y;
    assert u * (v * den) == v * (u * den);
  }

  /**
    Any numbers with these properties are the probabilities of the row, so that the output is the
    combination of the values with them.
   */
  lemma SoftmaxDeterminesRow(a: Problem, i: int, logit: Vector, w: Vector, c: int)
    requires a.el.Valid() && a.HasKey(i)
    requires forall j | 0 <= j < a.seqlenK ::
               logit(j) == Inner(a.headdim, Row(a.q, i), Row(a.k, j)) * a.scale + a.bias(i, j)
    requires forall j | 0 <= j < a.seqlenK && !a.allowed(i, j) :: w(j) == 0.0
    requires Sum(0, a.seqlenK, w) == 1.0
    requires forall j, k | 0 <= j < a.seqlenK && 0 <= k < a.seqlenK && a.allowed(i, j) && a.allowed(i, k) ::
               w(j) * a.el.exp(logit(k)) == w(k) * a.el.exp(logit(j))
    ensures forall j | 0 <= j < a.seqlenK :: w(j) == a.Prob(i, j)
    ensures forall j | 0 <= j < a.seqlenK && a.allowed(i, j) :: w(j) == a.el.exp(logit(j) - a.Lse(i))
    ensures a.Output(i, c) == Sum(0, a.seqlenK, j => w(j) * a.v(j, c))
  {
    ScoreForm(a, i);
    hide Inner, Sum, ExpLog.Valid, Problem.HasKey, Problem.Prob, Problem.Lse, Problem.Output, Problem.Score;
    assert forall j | 0 <= j < a.seqlenK :: logit(j) == a.Score(i, j);
    forall j, k | 0 <= j < a.seqlenK && 0 <= k < a.seqlenK && a.allowed(i, j) && a.allowed(i, k)
      ensures InProportion(a.el, logit, w, j, k)
    {
    }
    ScoresDetermineRow(a, i, logit, w, c);
    InnerAsSum(a, w, c);
  }

  lemma ScoresDetermineRow(a: Problem, i: int, logit: Vector, w: Vector, c: int)
    requires a.el.Valid() && a.HasKey(i)
    requires forall j | 0 <= j < a.seqlenK :: logit(j) == a.Score(i, j)
    requires forall j | 0 <= j < a.seqlenK && !a.allowed(i, j) :: w(j) == 0.0
    requires Sum(0, a.seqlenK, w) == 1.0
    requires forall j, k | 0 <= j < a.seqlenK && 0 <= k < a.seqlenK && a.allowed(i, j) && a.allowed(i, k) ::
               InProportion(a.el, logit, w, j, k)
    ensures forall j | 0 <= j < a.seqlenK :: w(j) == a.Prob(i, j)
    ensures forall j | 0 <= j < a.seqlenK && a.allowed(i, j) :: w(j) == a.el.exp(logit(j) - a.Lse(i))
    ensures a.Output(i, c) == Inner(a.seqlenK, w, Column(a.v, c))
  {
    hide Inner, Sum, ExpLog.Valid, Problem.HasKey, Problem.Prob, Problem.Score, Problem.Probs, Problem.Lse,
         Problem.Output, InProportion;
    forall k | 0 <= k < a.seqlenK
      ensures w(k) == a.Prob(i, k) && (a.allowed(i, k) ==> w(k) == a.el.exp(logit(k) - a.Lse(i)))
    {
      if a.allowed(i, k) {
        ProportionAt(a, i, logit, w, k);
        SoftmaxAtKey(a, i, logit, w, k);
      } else {
        a.MaskedProb(i, k);
      }
    }
    OutputWith(a, i, w, c);
  }

  ghost predicate InProportion(el: ExpLog, logit: Vector, w: Vector, j: int, k: int) {
    w(j) * el.exp(logit(k)) == w(k) * el.exp(logit(j))
  }

  lemma ProportionAt(a: Problem, i: int, logit: Vector, w: Vector, k: int)
    requires 0 <= k < a.seqlenK && a.allowed(i, k)
    requires forall j, k | 0 <= j < a.seqlenK && 0 <= k < a.seqlenK && a.allowed(i, j) && a.allowed(i, k) ::
               InProportion(a.el, logit, w, j, k)
    ensures forall j | 0 <= j < a.seqlenK && a.allowed(i, j) ::
              w(j) * a.el.exp(logit(k)) == w(k) * a.el.exp(logit(j))
  {
    forall j | 0 <= j < a.seqlenK && a.allowed(i, j)
      ensures w(j) * a.el.exp(logit(k)) == w(k) * a.el.exp(logit(j))
    {
      assert InProportion(a.el, logit, w, j, k);
    }
  }

  lemma ProbsAtKey(a: Problem, i: int, logit: Vector, e: Vector, k: int)
    requires a.el.Valid() && a.HasKey(i) && 0 <= k < a.seqlenK && a.allowed(i, k)
    requires forall j | 0 <= j < a.seqlenK :: logit(j) == a.Score(i, j)
    requires forall j :: e(j) == a.el.exp(logit(j))
    ensures forall j | 0 <= j < a.seqlenK && !a.allowed(i, j) :: a.Probs(i)(j) == 0.0
    ensures Sum(0, a.seqlenK, a.Probs(i)) == 1.0
    ensures forall j | 0 <= j < a.seqlenK && a.allowed(i, j) :: a.Probs(i)(j) * e(k) == a.Probs(i)(k) * e(j)
    ensures a.Probs(i)(k) == a.Prob(i, k) == a.el.exp(logit(k) - a.Lse(i))
  {
    ProbsAt(a, i);
    a.ProbsSumToOne(i);
    a.ProbFromLse(i, k);
    hide Inner, Sum, ExpLog.Valid, Problem.HasKey, Problem.Prob, Problem.Probs, Problem.Lse, Problem.Score;
    assert forall j | 0 <= j < a.seqlenK :: e(j) == a.el.exp(a.Score(i, j));
    forall j | 0 <= j < a.seqlenK && !a.allowed(i, j) ensures a.Prob(i, j) == 0.0 {
      a.MaskedProb(i, j);
    }
    ProbsProportional(a, i, e, k);
  }

  lemma ProbsProportional(a: Problem, i: int, e: Vector, k: int)
    requires a.el.Valid() && a.HasKey(i) && 0 <= k < a.seqlenK && a.allowed(i, k)
    requires forall j | 0 <= j < a.seqlenK :: e(j) == a.el.exp(a.Score(i, j))
    ensures forall j | 0 <= j < a.seqlenK && a.allowed(i, j) :: a.Probs(i)(j) * e(k) == a.Probs(i)(k) * e(j)
  {
    ProbsAt(a, i);
    hide ExpLog.Valid, Problem.HasKey, Problem.Prob, Problem.Probs, Problem.Score;
    forall j | 0 <= j < a.seqlenK && a.allowed(i, j) ensures a.Probs(i)(j) * e(k) == a.Probs(i)(k) * e(j) {
      ProbsInProportion(a, i, j, k);
    }
  }

  lemma SoftmaxAtKey(a: Problem, i: int, logit: Vector, w: Vector, k: int)
    requires a.el.Valid() && a.HasKey(i) && 0 <= k < a.seqlenK && a.allowed(i, k)
    requires forall j | 0 <= j < a.seqlenK :: logit(j) == a.Score(i, j)
    requires forall j | 0 <= j < a.seqlenK && !a.allowed(i, j) :: w(j) == 0.0
    requires Sum(0, a.seqlenK, w) == 1.0
    requires forall j | 0 <= j < a.seqlenK && a.allowed(i, j) ::
               w(j) * a.el.exp(logit(k)) == w(k) * a.el.exp(logit(j))
    ensures w(k) == a.Prob(i, k) == a.el.exp(logit(k) - a.Lse(i))
  {
    hide Inner, Sum, ExpLog.Valid, Problem.HasKey, Problem.Prob, Problem.Probs, Problem.Lse;
    var e: Vector := j => a.el.exp(logit(j));
    assert forall j | 0 <= j < a.seqlenK && a.allowed(i, j) :: w(j) * e(k) == w(k) * e(j);
    ProbsAtKey(a, i, logit, e, k);
    a.el.Positive(logit(k));
    SameSoftmax(a.seqlenK, j => a.allowed(i, j), e, w, a.Probs(i), k);
  }

  lemma ProbsAt(a: Problem, i: int)
    ensures forall j :: a.Probs(i)(j) == a.Prob(i, j)
  {
  }

  lemma SameSoftmax(n: nat, visible: int -> bool, e: Vector, w: Vector, w': Vector, k: int)
    requires 0 <= k < n && visible(k) && e(k) > 0.0
    requires forall j | 0 <= j < n && !visible(j) :: w(j) == 0.0 == w'(j)
    requires Sum(0, n, w) == 1.0 == Sum(0, n, w')
    requires forall j | 0 <= j < n && visible(j) :: w(j) * e(k) == w(k) * e(j)
    requires forall j | 0 <= j < n && visible(j) :: w'(j) * e(k) == w'(k) * e(j)
    ensures w(k) == w'(k)
  {
    hide Sum, Visible;
    OnlySoftmax(n, visible, e, w, k);
    OnlySoftmax(n, visible, e, w', k);
    SameFactor(w(k), w'(k), Sum(0, n, Visible(visible, e)), e(k));
  }

  lemma SameFactor(x: real, y: real, s: real, e: real)
    requires x * s == e && y * s == e && e > 0.0
    ensures x == y
  {
    assert (x - y) * s == 0.0;
  }

  lemma InnerAsSum(a: Problem, w: Vector, c: int)
    ensures Inner(a.seqlenK, w, Column(a.v, c)) == Sum(0, a.seqlenK, j => w(j) * a.v(j, c))
  {
    SumCongruence(0, a.seqlenK, Products(w, Column(a.v, c)), j => w(j) * a.v(j, c));
  }

  lemma OutputWith(a: Problem, i: int, w: Vector, c: int)
    requires forall j | 0 <= j < a.seqlenK :: w(j) == a.Prob(i, j)
    ensures a.Output(i, c) == Inner(a.seqlenK, w, Column(a.v, c))
  {
    hide Problem.Prob;
    InnerCongruence(a.seqlenK, a.Probs(i), Column(a.v, c), w, Column(a.v, c));
  }
}
