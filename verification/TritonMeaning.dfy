/**
  What the launch of the Triton forward kernel leaves in memory, said of the tensors that went in: softmax of
  scaled inner products plus bias over the visible keys, and how it answers to a bias.
 */
module TritonMeaning {
  import opened RealSums
  import opened ExpLogs
  import opened LinearAlgebra
  import opened Attention
  import opened AttentionLaws
  import opened TritonKernel
  import opened TritonForward

  lemma ReferenceLogits(p: Kernel, i: int)
    requires p.Launchable() && 0 <= i
    ensures p.Reference().HasKey(i)
    ensures forall j :: p.Reference().allowed(i, j) <==> (p.isCausal ==> j <= i)
    ensures forall j :: p.Reference().bias(i, j) ==
              if p.biasKind.NoBias? then 0.0 else if p.biasKind.VectorBias? then p.bias(0, j) else p.bias(i, j)
  {
    p.RowHasKey(i);
  }

  /**
    A stored row. The numbers `w` that vanish on keys behind the query of a causal launch, add up to one, and
    stand in the proportion of the exponentials of scaled inner product plus bias, are the exponentials of
    those relative to the stored log-sum-exp, and the stored output combines the values with them.
   */
  lemma StoredRow(p: Kernel, outs: array2<real>, lses: array<real>, i: nat, logit: Vector, w: Vector, c: nat)
    requires p.Launchable() && i < p.seqlenQ && i < lses.Length && c < p.headdim
    requires outs.Length0 == p.seqlenQ && outs.Length1 == p.headdim && RowStored(p, outs, lses, i)
    requires forall j | 0 <= j < p.seqlenK ::
               logit(j) == Inner(p.headdim, Row(p.q, i), Row(p.k, j)) * p.softmaxScale +
                 if p.biasKind.NoBias? then 0.0 else if p.biasKind.VectorBias? then p.bias(0, j) else p.bias(i, j)
    requires forall j | 0 <= j < p.seqlenK && p.isCausal && i < j :: w(j) == 0.0
    requires Sum(0, p.seqlenK, w) == 1.0
    requires forall j, k | 0 <= j < p.seqlenK && 0 <= k < p.seqlenK && (p.isCausal ==> j <= i && k <= i) ::
               w(j) * p.el.exp(logit(k)) == w(k) * p.el.exp(logit(j))
    ensures outs[i, c] == Sum(0, p.seqlenK, j => w(j) * p.v(j, c))
    ensures forall j | 0 <= j < p.seqlenK && (p.isCausal ==> j <= i) :: w(j) == p.el.exp(logit(j) - lses[i])
  {
    hide Inner, Sum, Problem.HasKey, Problem.Output, Problem.Lse, Problem.Prob;
    ReferenceLogits(p, i);
    var a := p.Reference();
    SoftmaxDeterminesRow(a, i, logit, w, c);
    SumCongruence(0, p.seqlenK, j => w(j) * a.v(j, c), j => w(j) * p.v(j, c));
  }

  /** There are such numbers: the probabilities. */
  lemma StoredRowExists(p: Kernel, i: nat, logit: Vector)
    requires p.Launchable() && i < p.seqlenQ
    requires forall j | 0 <= j < p.seqlenK ::
               logit(j) == Inner(p.headdim, Row(p.q, i), Row(p.k, j)) * p.softmaxScale +
                 if p.biasKind.NoBias? then 0.0 else if p.biasKind.VectorBias? then p.bias(0, j) else p.bias(i, j)
    ensures var w := p.Reference().Probs(i);
            && (forall j | 0 <= j < p.seqlenK && p.isCausal && i < j :: w(j) == 0.0)
            && Sum(0, p.seqlenK, w) == 1.0
            && forall j, k | 0 <= j < p.seqlenK && 0 <= k < p.seqlenK && (p.isCausal ==> j <= i && k <= i) ::
                 w(j) * p.el.exp(logit(k)) == w(k) * p.el.exp(logit(j))
  {
    hide Inner, Sum, Problem.HasKey, Problem.Prob;
    ReferenceLogits(p, i);
    ProbsAreSoftmax(p.Reference(), i, logit);
  }

  /**
    Adding `x` to a bias vector multiplies, in the stored row of every query alike, the probabilities by the
    exponentials of `x`, up to their new total.
   */
  lemma VectorBiasReweights(p: Kernel, p': Kernel, outs: array2<real>, lses: array<real>, x: Vector, i: nat, c: nat)
    requires p.Launchable() && p.biasKind.VectorBias? && p' == p.(bias := p'.bias)
    requires forall j | 0 <= j < p.seqlenK :: p'.bias(0, j) == p.bias(0, j) + x(j)
    requires i < p.seqlenQ && i < lses.Length && c < p.headdim
    requires outs.Length0 == p.seqlenQ && outs.Length1 == p.headdim && RowStored(p', outs, lses, i)
    ensures Sum(0, p.seqlenK, Reweighted(p.Reference(), x, i)) > 0.0
    ensures outs[i, c] * Sum(0, p.seqlenK, Reweighted(p.Reference(), x, i))
         == Sum(0, p.seqlenK, j => p.el.exp(x(j)) * p.Reference().Prob(i, j) * p.v(j, c))
  {
    hide Sum, Problem.HasKey, Problem.Output, Problem.Lse, Problem.Prob;
    ReferenceLogits(p, i);
    ReferenceLogits(p', i);
    var a, b := p.Reference(), p'.Reference();
    BiasReweightsOutput(a, b, i, x, c);
    SumCongruence(0, p.seqlenK, Products(Reweighted(a, x, i), Column(a.v, c)),
                  j => p.el.exp(x(j)) * a.Prob(i, j) * p.v(j, c));
  }
}
