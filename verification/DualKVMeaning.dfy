/**
  What a row of the DualKV forward kernel is, said of the tensors that went in: softmax of scaled inner products
  over the context keys and the decoded keys behind them, aligned to the bottom right when causal.
 */
module DualKVMeaning {
  import opened RealSums
  import opened ExpLogs
  import opened LinearAlgebra
  import opened Attention
  import opened AttentionLaws
  import opened DualKV
  import opened DualKVForward

  lemma KeyLogit(a: Launch, i: int, j: int)
    ensures Inner(a.headdim, Row(a.q, i), Row(a.Keys(), j))
         == Inner(a.headdim, Row(a.q, i),
                  if j < a.contextLen then Row(a.kContext, j) else Row(a.kDecoded, j - a.contextLen))
  {
    InnerCongruence(a.headdim, Row(a.q, i), Row(a.Keys(), j), Row(a.q, i),
                    if j < a.contextLen then Row(a.kContext, j) else Row(a.kDecoded, j - a.contextLen));
  }

  function ValueTerms(w: Vector, first: int, values: Tensor, c: int): Vector {
    j => w(first + j) * values(j, c)
  }

  lemma ValuesByPart(a: Launch, w: Vector, c: int)
    ensures Sum(0, a.SeqlenK(), ValueTerms(w, 0, a.Values(), c))
         == Sum(0, a.contextLen, ValueTerms(w, 0, a.vContext, c))
            + Sum(0, a.decodedLen, ValueTerms(w, a.contextLen, a.vDecoded, c))
  {
    var f := ValueTerms(w, 0, a.Values(), c);
    forall j | 0 <= j < a.contextLen ensures f(j) == ValueTerms(w, 0, a.vContext, c)(j) {
      assert a.Values()(j, c) == a.vContext(j, c);
    }
    forall j | 0 <= j < a.decodedLen
      ensures ValueTerms(w, a.contextLen, a.vDecoded, c)(j) == f(j + a.contextLen)
    {
      assert a.Values()(a.contextLen + j, c) == a.vDecoded(j, c);
    }
    hide ValueTerms;
    SumSplit(0, a.contextLen, a.SeqlenK(), f);
    SumCongruence(0, a.contextLen, f, ValueTerms(w, 0, a.vContext, c));
    SumShift(0, a.decodedLen, a.contextLen, f, ValueTerms(w, a.contextLen, a.vDecoded, c));
  }

  /**
    A row with a visible key. The numbers `w` that vanish on invisible keys, add up to one, and stand in the
    proportion of the exponentials of the scaled inner products, combine the values of both parts to the
    output, and are the exponentials relative to the log-sum-exp.
   */
  lemma RowMeaning(a: Launch, i: nat, last: int, logit: Vector, w: Vector, c: nat)
    requires a.Valid() && i < a.seqlenQ && last == i + a.contextLen + a.decodedLen - a.seqlenQ
    requires a.contextLen + a.decodedLen > 0 && (a.isCausal ==> last >= 0)
    requires forall j | 0 <= j < a.contextLen + a.decodedLen ::
               logit(j) == Inner(a.headdim, Row(a.q, i),
                                 if j < a.contextLen then Row(a.kContext, j) else Row(a.kDecoded, j - a.contextLen))
                           * a.scale
    requires forall j | 0 <= j < a.contextLen + a.decodedLen && a.isCausal && last < j :: w(j) == 0.0
    requires Sum(0, a.contextLen + a.decodedLen, w) == 1.0
    requires forall j, k | 0 <= j < a.contextLen + a.decodedLen && 0 <= k < a.contextLen + a.decodedLen
                           && (a.isCausal ==> j <= last && k <= last) ::
               w(j) * a.el.exp(logit(k)) == w(k) * a.el.exp(logit(j))
    ensures a.Reference().Output(i, c)
         == Sum(0, a.contextLen, j => w(j) * a.vContext(j, c))
            + Sum(0, a.decodedLen, j => w(a.contextLen + j) * a.vDecoded(j, c))
    ensures ReferenceLse(a, i).Finite?
    ensures forall j | 0 <= j < a.contextLen + a.decodedLen && (a.isCausal ==> j <= last) ::
              w(j) == a.el.exp(logit(j) - ReferenceLse(a, i).val)
  {
    hide Inner, Sum;
    forall j, k | 0 <= j < a.contextLen + a.decodedLen && 0 <= k < a.contextLen + a.decodedLen
                  && (a.isCausal ==> j <= last && k <= last)
      ensures InProportion(a.el, logit, w, j, k)
    {
    }
    LogitIsScore(a, i, logit);
    RowFromScores(a, i, last, logit, w, c);
    CombinedByPart(a, w, c);
  }

  lemma RowFromScores(a: Launch, i: nat, last: int, logit: Vector, w: Vector, c: nat)
    requires a.Valid() && i < a.seqlenQ && last == i + a.contextLen + a.decodedLen - a.seqlenQ
    requires a.contextLen + a.decodedLen > 0 && (a.isCausal ==> last >= 0)
    requires forall j | 0 <= j < a.contextLen + a.decodedLen :: logit(j) == a.Reference().Score(i, j)
    requires forall j | 0 <= j < a.contextLen + a.decodedLen && a.isCausal && last < j :: w(j) == 0.0
    requires Sum(0, a.contextLen + a.decodedLen, w) == 1.0
    requires forall j, k | 0 <= j < a.contextLen + a.decodedLen && 0 <= k < a.contextLen + a.decodedLen
                           && (a.isCausal ==> j <= last && k <= last) :: InProportion(a.el, logit, w, j, k)
    ensures a.Reference().Output(i, c) == Inner(a.SeqlenK(), w, Column(a.Values(), c))
    ensures ReferenceLse(a, i).Finite?
    ensures forall j | 0 <= j < a.contextLen + a.decodedLen && (a.isCausal ==> j <= last) ::
              w(j) == a.el.exp(logit(j) - ReferenceLse(a, i).val)
  {
    VisibleKey(a, i);
    ReferenceFields(a, i, last);
    hide Inner, Sum, Launch.Reference, Problem.HasKey, Problem.Output, Problem.Lse, Problem.Prob, Problem.Score,
         InProportion;
    ScoresDetermineRow(a.Reference(), i, logit, w, c);
  }

  lemma ReferenceFields(a: Launch, i: nat, last: int)
    requires last == i + a.contextLen + a.decodedLen - a.seqlenQ
    ensures a.Reference().el == a.el && a.Reference().seqlenK == a.SeqlenK() && a.Reference().v == a.Values()
    ensures forall j :: a.Reference().allowed(i, j) <==> (a.isCausal ==> j <= last)
  {
  }

  lemma VisibleKey(a: Launch, i: nat)
    requires a.Valid() && i < a.seqlenQ && a.contextLen + a.decodedLen > 0
    requires a.isCausal ==> a.seqlenQ <= i + a.contextLen + a.decodedLen
    ensures a.Reference().HasKey(i) && ReferenceLse(a, i) == Finite(a.Reference().Lse(i))
  {
    var b := a.Reference();
    assert 0 <= 0 < b.seqlenK && b.allowed(i, 0);
    b.DenominatorPositive(i);
  }

  lemma LogitIsScore(a: Launch, i: nat, logit: Vector)
    requires forall j | 0 <= j < a.contextLen + a.decodedLen ::
               logit(j) == Inner(a.headdim, Row(a.q, i),
                                 if j < a.contextLen then Row(a.kContext, j) else Row(a.kDecoded, j - a.contextLen))
                           * a.scale
    ensures forall j | 0 <= j < a.contextLen + a.decodedLen :: logit(j) == a.Reference().Score(i, j)
  {
    hide Inner;
    forall j | 0 <= j < a.contextLen + a.decodedLen ensures logit(j) == a.Reference().Score(i, j) {
      KeyLogit(a, i, j);
    }
  }

  lemma CombinedByPart(a: Launch, w: Vector, c: int)
    ensures Inner(a.SeqlenK(), w, Column(a.Values(), c))
         == Sum(0, a.contextLen, j => w(j) * a.vContext(j, c))
            + Sum(0, a.decodedLen, j => w(a.contextLen + j) * a.vDecoded(j, c))
  {
    hide Sum;
    ValuesByPart(a, w, c);
    SumCongruence(0, a.SeqlenK(), Products(w, Column(a.Values(), c)), ValueTerms(w, 0, a.Values(), c));
    SumCongruence(0, a.contextLen, j => w(j) * a.vContext(j, c), ValueTerms(w, 0, a.vContext, c));
    SumCongruence(0, a.decodedLen, j => w(a.contextLen + j) * a.vDecoded(j, c),
                  ValueTerms(w, a.contextLen, a.vDecoded, c));
  }

  /** A row that sees no key is zero, with the log-sum-exp that marks it. */
  lemma BlindRow(a: Launch, i: nat, c: nat)
    requires a.Valid() && i < a.seqlenQ
    requires a.contextLen + a.decodedLen == 0 || (a.isCausal && i + a.contextLen + a.decodedLen < a.seqlenQ)
    ensures a.Reference().Output(i, c) == 0.0 && ReferenceLse(a, i) == Infinite
  {
    var b := a.Reference();
    b.DenominatorPositive(i);
    assert !b.HasKey(i);
    EmptyRow(b, i, c);
  }
}
