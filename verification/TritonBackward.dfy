/**
  The tiled backward kernel: probabilities are recomputed from the stored log-sum-exp, and dq, dk and
  dv are accumulated one column block at a time.
 */
module TritonBackward {
  import opened RealSums
  import opened ExpLogs
  import opened LinearAlgebra
  import opened Attention
  import opened TritonKernel
  import opened AtomicAdds
  import Cxx = CxxArithmetic

  /** The backward launch: the forward parameters, the upstream gradient, and the two row buffers. */
  datatype Backward = Backward(p: Kernel, dout: Tensor, lse: Vector, delta: Vector) {

    /** What the forward pass and the preprocess kernel leave in the row buffers. */
    ghost predicate Launchable() {
      && p.Launchable()
      && (forall i | 0 <= i < p.seqlenQ :: lse(i) == p.Reference().Lse(i))
      && (forall i | 0 <= i < p.seqlenQ :: delta(i) == p.Reference().Delta(dout, i))
      && (forall i | i >= p.seqlenQ :: delta(i) == 0.0)
    }

    function LoadRow(t: Tensor, i: int): Vector
      requires p.blockM > 0
    {
      var even := p.EvenM() && p.EvenHeaddim();
      c => p.Load(t, i, c, p.seqlenQ, even)
    }

    function LoadQ(): Tensor
      requires p.blockM > 0
    {
      (i, c) => LoadRow(p.q, i)(c)
    }

    function LoadDout(): Tensor
      requires p.blockM > 0
    {
      (i, c) => LoadRow(dout, i)(c)
    }

    function LoadK(): Tensor
      requires p.blockM > 0 && p.blockN > 0
    {
      (j, c) => p.LoadK(j)(c)
    }

    /** The masked and scaled score, recomputed with the backward kernel's loads. */
    function ScaledScore(i: int, j: int): Ext
      requires p.blockM > 0 && p.blockN > 0 && p.softmaxScale > 0.0
    {
      var dot := if !p.EvenN() && !(j < p.seqlenK) then NegInf
                 else if p.isCausal && !(i >= j) then NegInf
                 else Fin(Inner(p.blockHeaddim, LoadRow(p.q, i), p.LoadK(j)));
      AddExt(ScaleExt(dot, p.softmaxScale), p.LoadBias(i, j))
    }

    function Prob(i: int, j: int): real
      requires p.blockM > 0 && p.blockN > 0 && p.softmaxScale > 0.0
    {
      ExpExt(p.el, SubExt(ScaledScore(i, j), Fin(lse(i))))
    }

    function ProbGrad(i: int, j: int): real
      requires p.blockM > 0 && p.blockN > 0
    {
      Inner(p.blockHeaddim, LoadRow(dout, i), Row(p.LoadV(), j))
    }

    function ScaledScoreGrad(i: int, j: int): real
      requires p.blockM > 0 && p.blockN > 0 && p.softmaxScale > 0.0
    {
      Prob(i, j) * (ProbGrad(i, j) - delta(i)) * p.softmaxScale
    }

    function ProbsOfKey(j: int): Vector
      requires p.blockM > 0 && p.blockN > 0 && p.softmaxScale > 0.0
    {
      i => Prob(i, j)
    }

    function GradsOfKey(j: int): Vector
      requires p.blockM > 0 && p.blockN > 0 && p.softmaxScale > 0.0
    {
      i => ScaledScoreGrad(i, j)
    }

    function GradsOfQuery(i: int): Vector
      requires p.blockM > 0 && p.blockN > 0 && p.softmaxScale > 0.0
    {
      j => ScaledScoreGrad(i, j)
    }

    // ----- Elementwise agreement with the reference ------------------------------------------------

    lemma LoadedRow(t: Tensor, i: int, c: int)
      requires p.blockM > 0
      ensures 0 <= i < p.seqlenQ && 0 <= c < p.headdim ==> LoadRow(t, i)(c) == t(i, c)
      ensures i >= p.seqlenQ && !p.EvenM() ==> LoadRow(t, i)(c) == 0.0
      ensures !p.EvenHeaddim() && c >= p.headdim ==> LoadRow(t, i)(c) == 0.0
    {
      assert LoadRow(t, i)(c) == p.Load(t, i, c, p.seqlenQ, p.EvenM() && p.EvenHeaddim());
    }

    lemma LoadedKey(j: int, c: int)
      requires p.blockM > 0 && p.blockN > 0 && 0 <= j < p.seqlenK && 0 <= c < p.headdim
      ensures LoadK()(j, c) == p.k(j, c)
      ensures p.LoadV()(j, c) == p.v(j, c)
    {
      assert p.LoadK(j)(c) == p.Load(p.k, j, c, p.seqlenK, p.EvenM() && p.EvenN());
      assert p.LoadV()(j, c) == p.Load(p.v, j, c, p.seqlenK, p.EvenM() && p.EvenN());
    }

    lemma DotMatches(i: int, j: int)
      requires p.Launchable() && 0 <= i < p.seqlenQ && 0 <= j < p.seqlenK
      ensures Inner(p.blockHeaddim, LoadRow(p.q, i), p.LoadK(j)) == Inner(p.headdim, Row(p.q, i), Row(p.k, j))
      ensures ProbGrad(i, j) == Inner(p.headdim, Row(dout, i), Row(p.v, j))
    {
      forall c
        ensures 0 <= c < p.headdim ==> LoadRow(p.q, i)(c) == Row(p.q, i)(c) && p.LoadK(j)(c) == Row(p.k, j)(c)
        ensures 0 <= c < p.headdim ==> LoadRow(dout, i)(c) == Row(dout, i)(c) && Row(p.LoadV(), j)(c) == Row(p.v, j)(c)
        ensures !p.EvenHeaddim() && p.headdim <= c ==> LoadRow(p.q, i)(c) == 0.0 && LoadRow(dout, i)(c) == 0.0
      {
        LoadedRow(p.q, i, c);
        LoadedRow(dout, i, c);
        if 0 <= c < p.headdim {
          LoadedKey(j, c);
        }
      }
      p.PaddedDot(LoadRow(p.q, i), p.LoadK(j), Row(p.q, i), Row(p.k, j));
      p.PaddedDot(LoadRow(dout, i), Row(p.LoadV(), j), Row(dout, i), Row(p.v, j));
    }

    lemma ScoreMatches(i: int, j: int)
      requires p.Launchable() && 0 <= i < p.seqlenQ && 0 <= j < p.seqlenK
      ensures ScaledScore(i, j) == if p.isCausal && i < j then NegInf else Fin(p.Reference().Score(i, j))
    {
      DotMatches(i, j);
      hide Inner;
    }

    /** Recomputed probabilities are the softmax probabilities. */
    lemma ProbMatches(i: int, j: int)
      requires Launchable() && 0 <= i < p.seqlenQ && 0 <= j < p.seqlenK
      ensures Prob(i, j) == p.Reference().Prob(i, j)
    {
      ScoreMatches(i, j);
      if p.isCausal && i < j {
        p.Reference().MaskedProb(i, j);
      } else {
        p.RowHasKey(i);
        p.Reference().ProbFromLse(i, j);
      }
    }

    /** Recomputed score gradients are the reference score gradients times the scale. */
    lemma ScoreGradMatches(i: int, j: int)
      requires Launchable() && 0 <= i < p.seqlenQ && 0 <= j < p.seqlenK
      ensures ScaledScoreGrad(i, j) == p.softmaxScale * p.Reference().ScoreGrad(dout, i, j)
    {
      var a := p.Reference();
      ProbMatches(i, j);
      DotMatches(i, j);
      a.ScoreGradFromDelta(dout, i, j);
      assert a.ProbGrads(dout, i)(j) == ProbGrad(i, j);
    }

    /** Causally masked pairs have no gradient, whatever the row. */
    lemma MaskedPair(i: int, j: int)
      requires p.Launchable() && p.isCausal && i < j
      ensures Prob(i, j) == 0.0 && ScaledScoreGrad(i, j) == 0.0
    {
    }

    /** Rows past the last query contribute nothing: their upstream gradient and delta are zero. */
    lemma PaddedRow(i: int, j: int)
      requires Launchable() && i >= p.seqlenQ && !p.EvenM()
      ensures ScaledScoreGrad(i, j) == 0.0
    {
      forall c ensures LoadRow(dout, i)(c) == 0.0 {
        LoadedRow(dout, i, c);
      }
      SumZero(0, p.blockHeaddim, Products(LoadRow(dout, i), Row(p.LoadV(), j)));
    }

    /** Keys past the last one that a column block can reach have no gradient. */
    lemma PaddedKey(i: int, j: int, blocks: nat)
      requires p.Launchable() && p.seqlenK <= j < blocks * p.blockN
      requires blocks > 0 ==> (blocks - 1) * p.blockN < p.seqlenK
      ensures Prob(i, j) == 0.0 && ScaledScoreGrad(i, j) == 0.0
    {
      if p.EvenN() {
        p.EvenTilesEnd(blocks);
      }
    }
  }

  // ----- Row and column spans -----------------------------------------------------------------------

  /** The first row block that a column block visits: rows above it are entirely masked. */
  function BeginM(p: Kernel, startN: nat): (begin: nat)
    requires p.blockM > 0 && p.blockN > 0
    ensures begin <= startN * p.blockN
    ensures begin % p.blockM == 0
  {
    if !p.isCausal then 0
    else
      RoundDown(startN * p.blockN, p.blockM);
      startN * p.blockN / p.blockM * p.blockM
  }

  lemma RoundDown(n: nat, block: nat)
    requires block > 0
    ensures 0 <= n / block * block <= n
    ensures n / block * block % block == 0
  {
    assert n == n / block * block + n % block;
    Cxx.QuotientUnique(n / block * block, n / block, 0, block);
  }

  function EndM(p: Kernel): nat
    requires p.blockM > 0
  {
    Cdiv(p.seqlenQ, p.blockM) * p.blockM
  }

  /** When the row blocks are even they end exactly at the last query. */
  lemma EvenRowsEnd(p: Kernel)
    requires p.blockM > 0 && p.EvenM()
    ensures EndM(p) == p.seqlenQ
  {
    var whole: nat := p.seqlenQ / p.blockM;
    assert p.seqlenQ == whole * p.blockM;
    Cxx.ProductOrder(Cdiv(p.seqlenQ, p.blockM), whole, p.blockM);
  }

  /** Sums over the visited rows equal sums over all queries when the other rows contribute zero. */
  lemma SumOverRows(p: Kernel, startN: nat, f: Vector)
    requires p.Launchable()
    requires forall i | 0 <= i < BeginM(p, startN) :: f(i) == 0.0
    requires !p.EvenM() ==> forall i | i >= p.seqlenQ :: f(i) == 0.0
    ensures BeginM(p, startN) < p.seqlenQ ==> Sum(BeginM(p, startN), EndM(p), f) == Sum(0, p.seqlenQ, f)
    ensures BeginM(p, startN) >= p.seqlenQ ==> Sum(0, p.seqlenQ, f) == 0.0
  {
    var begin, end := BeginM(p, startN), EndM(p);
    if begin < p.seqlenQ {
      SumSplit(0, begin, p.seqlenQ, f);
      SumZero(0, begin, f);
      if p.EvenM() {
        EvenRowsEnd(p);
      } else {
        SumSupport(begin, p.seqlenQ, end, f);
      }
    } else {
      SumZero(0, p.seqlenQ, f);
    }
  }

  /** What row `i` of a key column adds to dv. */
  function ValueTerms(b: Backward, j: int, c: int): Vector
    requires b.p.Launchable()
  {
    Products(b.ProbsOfKey(j), Column(b.LoadDout(), c))
  }

  /** What row `i` of a key column adds to dk. */
  function KeyTerms(b: Backward, j: int, c: int): Vector
    requires b.p.Launchable()
  {
    Products(b.GradsOfKey(j), Column(b.LoadQ(), c))
  }

  /** What key `j` of a query row adds to dq. */
  function QueryTerms(b: Backward, i: int, c: int): Vector
    requires b.p.Launchable()
  {
    Products(b.GradsOfQuery(i), Column(b.LoadK(), c))
  }

  lemma ValueTermsVanish(b: Backward, startN: nat, j: int, c: int)
    requires b.Launchable() && startN * b.p.blockN <= j < b.p.seqlenK
    ensures forall i | 0 <= i < BeginM(b.p, startN) :: ValueTerms(b, j, c)(i) == 0.0
    ensures !b.p.EvenM() ==> forall i | i >= b.p.seqlenQ :: ValueTerms(b, j, c)(i) == 0.0
  {
    forall i | 0 <= i < BeginM(b.p, startN) ensures ValueTerms(b, j, c)(i) == 0.0 {
      b.MaskedPair(i, j);
    }
    forall i | i >= b.p.seqlenQ && !b.p.EvenM() ensures ValueTerms(b, j, c)(i) == 0.0 {
      b.LoadedRow(b.dout, i, c);
    }
  }

  lemma KeyTermsVanish(b: Backward, startN: nat, j: int, c: int)
    requires b.Launchable() && startN * b.p.blockN <= j < b.p.seqlenK
    ensures forall i | 0 <= i < BeginM(b.p, startN) :: KeyTerms(b, j, c)(i) == 0.0
    ensures !b.p.EvenM() ==> forall i | i >= b.p.seqlenQ :: KeyTerms(b, j, c)(i) == 0.0
  {
    forall i | 0 <= i < BeginM(b.p, startN) ensures KeyTerms(b, j, c)(i) == 0.0 {
      b.MaskedPair(i, j);
    }
    forall i | i >= b.p.seqlenQ && !b.p.EvenM() ensures KeyTerms(b, j, c)(i) == 0.0 {
      b.PaddedRow(i, j);
    }
  }

  lemma ValueSumMatches(b: Backward, j: int, c: int)
    requires b.Launchable() && 0 <= j < b.p.seqlenK && 0 <= c < b.p.headdim
    ensures Sum(0, b.p.seqlenQ, ValueTerms(b, j, c)) == b.p.Reference().GradV(b.dout)(j, c)
  {
    var a, n := b.p.Reference(), b.p.seqlenQ;
    forall i | 0 <= i < n
      ensures b.ProbsOfKey(j)(i) == a.ProbsOfKey(j)(i) && Column(b.LoadDout(), c)(i) == Column(b.dout, c)(i)
    {
      b.ProbMatches(i, j);
      b.LoadedRow(b.dout, i, c);
    }
    InnerCongruence(n, b.ProbsOfKey(j), Column(b.LoadDout(), c), a.ProbsOfKey(j), Column(b.dout, c));
    assert Combination(n, a.ProbsOfKey(j), b.dout)(c) == Inner(n, a.ProbsOfKey(j), Column(b.dout, c));
  }

  lemma ScaledGrads(b: Backward, i: int, j: int)
    requires b.Launchable() && 0 <= i < b.p.seqlenQ && 0 <= j < b.p.seqlenK
    ensures b.GradsOfKey(j)(i) == Scaled(b.p.softmaxScale, b.p.Reference().ScoreGradsOfKey(b.dout, j))(i)
    ensures b.GradsOfQuery(i)(j) == Scaled(b.p.softmaxScale, b.p.Reference().ScoreGradsOfQuery(b.dout, i))(j)
  {
    b.ScoreGradMatches(i, j);
  }

  lemma KeyGradsAgree(b: Backward, j: int, c: int)
    requires b.Launchable() && 0 <= j < b.p.seqlenK && 0 <= c < b.p.headdim
    ensures Agree(b.p.seqlenQ, b.GradsOfKey(j), Scaled(b.p.softmaxScale, b.p.Reference().ScoreGradsOfKey(b.dout, j)))
    ensures Agree(b.p.seqlenQ, Column(b.LoadQ(), c), Column(b.p.q, c))
  {
    hide Scaled, Backward.Launchable, Backward.GradsOfKey, Problem.ScoreGradsOfKey, Kernel.Reference;
    KernelLaunchable(b);
    forall i | 0 <= i < b.p.seqlenQ
      ensures b.GradsOfKey(j)(i) == Scaled(b.p.softmaxScale, b.p.Reference().ScoreGradsOfKey(b.dout, j))(i)
      ensures Column(b.LoadQ(), c)(i) == Column(b.p.q, c)(i)
    {
      ScaledGrads(b, i, j);
      b.LoadedRow(b.p.q, i, c);
    }
  }

  lemma KernelLaunchable(b: Backward)
    requires b.Launchable()
    ensures b.p.Launchable()
  {
  }

  lemma KeyTermsSum(b: Backward, j: int, c: int)
    requires b.Launchable() && 0 <= j < b.p.seqlenK && 0 <= c < b.p.headdim
    ensures Sum(0, b.p.seqlenQ, KeyTerms(b, j, c))
         == b.p.softmaxScale * Inner(b.p.seqlenQ, b.p.Reference().ScoreGradsOfKey(b.dout, j), Column(b.p.q, c))
  {
    hide Agree, Column, Products, Scaled, Sum, Backward.Launchable, Backward.GradsOfKey, Backward.LoadQ,
         Problem.ScoreGradsOfKey, Kernel.Reference, Kernel.Launchable;
    KernelLaunchable(b);
    KeyGradsAgree(b, j, c);
    var n, grads := b.p.seqlenQ, b.p.Reference().ScoreGradsOfKey(b.dout, j);
    InnerCongruence(n, b.GradsOfKey(j), Column(b.LoadQ(), c), Scaled(b.p.softmaxScale, grads), Column(b.p.q, c));
    InnerScaled(n, b.p.softmaxScale, grads, Column(b.p.q, c));
  }

  lemma KeySumMatches(b: Backward, j: int, c: int)
    requires b.Launchable() && 0 <= j < b.p.seqlenK && 0 <= c < b.p.headdim
    ensures Sum(0, b.p.seqlenQ, KeyTerms(b, j, c)) == b.p.Reference().GradK(b.dout)(j, c)
  {
    hide Column, Sum, Backward.Launchable, Kernel.Launchable, KeyTerms, Problem.ScoreGradsOfKey, Inner;
    KernelLaunchable(b);
    KeyTermsSum(b, j, c);
    var a := b.p.Reference();
    var sum := Inner(b.p.seqlenQ, a.ScoreGradsOfKey(b.dout, j), Column(b.p.q, c));
    assert a.scale == b.p.softmaxScale && Combination(a.seqlenQ, a.ScoreGradsOfKey(b.dout, j), a.q)(c) == sum;
    MulCongruence(b.p.softmaxScale, sum, a.scale, Combination(a.seqlenQ, a.ScoreGradsOfKey(b.dout, j), a.q)(c));
  }

  lemma QueryGradsAgree(b: Backward, i: int, c: int)
    requires b.Launchable() && 0 <= i < b.p.seqlenQ && 0 <= c < b.p.headdim
    ensures Agree(b.p.seqlenK, b.GradsOfQuery(i),
                Scaled(b.p.softmaxScale, b.p.Reference().ScoreGradsOfQuery(b.dout, i)))
    ensures Agree(b.p.seqlenK, Column(b.LoadK(), c), Column(b.p.k, c))
  {
    hide Scaled, Backward.Launchable, Backward.GradsOfQuery, Backward.LoadK, Problem.ScoreGradsOfQuery,
         Kernel.Reference;
    KernelLaunchable(b);
    forall j | 0 <= j < b.p.seqlenK
      ensures b.GradsOfQuery(i)(j) == Scaled(b.p.softmaxScale, b.p.Reference().ScoreGradsOfQuery(b.dout, i))(j)
      ensures Column(b.LoadK(), c)(j) == Column(b.p.k, c)(j)
    {
      ScaledGrads(b, i, j);
      b.LoadedKey(j, c);
    }
  }

  lemma QuerySumMatches(b: Backward, i: int, c: int)
    requires b.Launchable() && 0 <= i < b.p.seqlenQ && 0 <= c < b.p.headdim
    ensures Sum(0, b.p.seqlenK, QueryTerms(b, i, c)) == b.p.Reference().GradQ(b.dout)(i, c)
  {
    hide Agree, Column, Products, Scaled, Sum, Backward.Launchable, Kernel.Launchable, Backward.GradsOfQuery,
         Backward.LoadK, Problem.ScoreGradsOfQuery;
    KernelLaunchable(b);
    var a, n := b.p.Reference(), b.p.seqlenK;
    var grads := a.ScoreGradsOfQuery(b.dout, i);
    QueryGradsAgree(b, i, c);
    InnerCongruence(n, b.GradsOfQuery(i), Column(b.LoadK(), c), Scaled(b.p.softmaxScale, grads), Column(b.p.k, c));
    InnerScaled(n, b.p.softmaxScale, grads, Column(b.p.k, c));
    var sum := Inner(n, grads, Column(b.p.k, c));
    assert a.scale == b.p.softmaxScale && Combination(a.seqlenK, grads, a.k)(c) == sum;
    MulCongruence(b.p.softmaxScale, sum, a.scale, Combination(a.seqlenK, grads, a.k)(c));
    hide Kernel.Reference, Combination, Inner;
  }

  // ----- The kernel ---------------------------------------------------------------------------------

  /** What column block `startN` adds to dq. */
  function BlockContribution(b: Backward, startN: nat, i: int, c: int): real
    requires b.p.Launchable()
  {
    Sum(startN * b.p.blockN, (startN + 1) * b.p.blockN, QueryTerms(b, i, c))
  }

  /** Rows above the first visited row block receive nothing from the column block. */
  lemma NoContribution(b: Backward, startN: nat, i: int, c: int)
    requires b.p.Launchable() && 0 <= i < BeginM(b.p, startN)
    ensures BlockContribution(b, startN, i, c) == 0.0
  {
    forall j | startN * b.p.blockN <= j < (startN + 1) * b.p.blockN ensures QueryTerms(b, i, c)(j) == 0.0 {
      b.MaskedPair(i, j);
    }
    SumZero(startN * b.p.blockN, (startN + 1) * b.p.blockN, QueryTerms(b, i, c));
  }

  /** And no row block is visited in vain: its last row sees the first key of the column block. */
  lemma VisitedRowsSee(p: Kernel, startN: nat, mBlock: nat)
    requires p.Launchable() && BeginM(p, startN) <= mBlock * p.blockM
    ensures p.Reference().allowed((mBlock + 1) * p.blockM - 1, startN * p.blockN)
  {
    if p.isCausal {
      var start := startN * p.blockN;
      Cxx.ProductOrder(0, startN, p.blockN);
      Cxx.DivBounds(start, p.blockM);
      Cxx.ProductOrder(start / p.blockM, mBlock, p.blockM);
      Cxx.ProductOrder(start / p.blockM + 1, mBlock + 1, p.blockM);
    }
  }

  function AddValues(b: Backward, acc: Tensor, lo: int, hi: int): Tensor
    requires b.p.Launchable()
  {
    (j, c) => acc(j, c) + Sum(lo, hi, ValueTerms(b, j, c))
  }

  function AddKeys(b: Backward, acc: Tensor, lo: int, hi: int): Tensor
    requires b.p.Launchable()
  {
    (j, c) => acc(j, c) + Sum(lo, hi, KeyTerms(b, j, c))
  }

  /** The tile accumulators hold the sums over the rows from `begin` to `startM`. */
  ghost predicate Accumulated(b: Backward, dv: Tensor, dk: Tensor, begin: int, startM: int)
    requires b.p.Launchable()
  {
    forall j, c :: dv(j, c) == Sum(begin, startM, ValueTerms(b, j, c)) &&
      dk(j, c) == Sum(begin, startM, KeyTerms(b, j, c))
  }

  lemma AccumulateTile(b: Backward, dv: Tensor, dk: Tensor, begin: int, lo: int, hi: int)
    requires b.p.Launchable() && Accumulated(b, dv, dk, begin, lo) && begin <= lo <= hi
    ensures Accumulated(b, AddValues(b, dv, lo, hi), AddKeys(b, dk, lo, hi), begin, hi)
  {
    forall j, c
      ensures AddValues(b, dv, lo, hi)(j, c) == Sum(begin, hi, ValueTerms(b, j, c))
      ensures AddKeys(b, dk, lo, hi)(j, c) == Sum(begin, hi, KeyTerms(b, j, c))
    {
      SumSplit(begin, lo, hi, ValueTerms(b, j, c));
      SumSplit(begin, lo, hi, KeyTerms(b, j, c));
    }
  }

  /** The accumulators of a finished column block are the reference gradients of its keys. */
  lemma FinishedBlock(b: Backward, startN: nat, dv: Tensor, dk: Tensor, j: int, c: int)
    requires b.Launchable() && startN * b.p.blockN <= j < b.p.seqlenK && 0 <= c < b.p.headdim
    requires if BeginM(b.p, startN) >= b.p.seqlenQ then dv(j, c) == 0.0 == dk(j, c)
             else Accumulated(b, dv, dk, BeginM(b.p, startN), EndM(b.p))
    ensures dv(j, c) == b.p.Reference().GradV(b.dout)(j, c)
    ensures dk(j, c) == b.p.Reference().GradK(b.dout)(j, c)
  {
    ValueTermsVanish(b, startN, j, c);
    KeyTermsVanish(b, startN, j, c);
    SumOverRows(b.p, startN, ValueTerms(b, j, c));
    SumOverRows(b.p, startN, KeyTerms(b, j, c));
    ValueSumMatches(b, j, c);
    KeySumMatches(b, j, c);
  }

  ghost predicate KeyStored(b: Backward, dk: array2<real>, dv: array2<real>, j: nat)
    requires j < dk.Length0 && j < dv.Length0 && b.p.headdim <= dk.Length1 && b.p.headdim <= dv.Length1
    reads dk, dv
  {
    forall c | 0 <= c < b.p.headdim ::
      dk[j, c] == b.p.Reference().GradK(b.dout)(j, c) && dv[j, c] == b.p.Reference().GradV(b.dout)(j, c)
  }

  /** The masked store of a finished column block. */
  method StoreDkDv(b: Backward, startN: nat, base: nat, dvAcc: Tensor, dkAcc: Tensor, dk: array2<real>,
      dv: array2<real>)
    requires b.Launchable() && base == startN * b.p.blockN
    requires dk != dv && dk.Length0 == dv.Length0 == b.p.seqlenK && dk.Length1 == dv.Length1 == b.p.headdim
    requires if BeginM(b.p, startN) >= b.p.seqlenQ then forall j, c :: dvAcc(j, c) == 0.0 == dkAcc(j, c)
             else Accumulated(b, dvAcc, dkAcc, BeginM(b.p, startN), EndM(b.p))
    modifies dk, dv
    ensures forall j: nat :: base <= j < base + b.p.blockN && j < b.p.seqlenK ==> KeyStored(b, dk, dv, j)
    ensures forall j: nat :: j < base && j < b.p.seqlenK && old(KeyStored(b, dk, dv, j)) ==> KeyStored(b, dk, dv, j)
  {
    hide b.p.Reference;
    forall j, c | base <= j < base + b.p.blockN && j < b.p.seqlenK && 0 <= c < b.p.headdim {
      dv[j, c] := dvAcc(j, c);
    }
    forall j, c | base <= j < base + b.p.blockN && j < b.p.seqlenK && 0 <= c < b.p.headdim {
      dk[j, c] := dkAcc(j, c);
    }
    forall j: nat | base <= j < base + b.p.blockN && j < b.p.seqlenK ensures KeyStored(b, dk, dv, j) {
      forall c | 0 <= c < b.p.headdim
        ensures dk[j, c] == b.p.Reference().GradK(b.dout)(j, c) && dv[j, c] == b.p.Reference().GradV(b.dout)(j, c)
      {
        FinishedBlock(b, startN, dvAcc, dkAcc, j, c);
      }
    }
  }

  /** Every real cell of dq equals its value in `before` plus what the first `rows` rows receive. */
  ghost predicate Added(b: Backward, startN: nat, dq: array2<real>, before: Tensor, rows: int)
    requires b.p.Launchable() && dq.Length0 == b.p.seqlenQ && dq.Length1 == b.p.headdim
    reads dq
  {
    forall i, c | 0 <= i < b.p.seqlenQ && 0 <= c < b.p.headdim ::
      dq[i, c] == before(i, c) + if i < rows then BlockContribution(b, startN, i, c) else 0.0
  }

  /** The read-modify-write of one dq tile: the rows of one row block, under the masks. */
  method AddDqTile(b: Backward, startN: nat, startM: nat, dq: array2<real>, ghost before: Tensor)
    requires b.p.Launchable() && dq.Length0 == b.p.seqlenQ && dq.Length1 == b.p.headdim
    requires Added(b, startN, dq, before, startM)
    modifies dq
    ensures Added(b, startN, dq, before, startM + b.p.blockM)
  {
    forall i, c | startM <= i < startM + b.p.blockM && i < b.p.seqlenQ && 0 <= c < b.p.headdim {
      dq[i, c] := dq[i, c] + Sum(startN * b.p.blockN, (startN + 1) * b.p.blockN, QueryTerms(b, i, c));
    }
  }

  lemma SkippedRows(b: Backward, startN: nat, dq: array2<real>, before: Tensor)
    requires b.p.Launchable() && dq.Length0 == b.p.seqlenQ && dq.Length1 == b.p.headdim
    requires Added(b, startN, dq, before, 0)
    ensures Added(b, startN, dq, before, BeginM(b.p, startN))
    ensures BeginM(b.p, startN) >= b.p.seqlenQ ==> Added(b, startN, dq, before, b.p.seqlenQ)
  {
    forall i, c | 0 <= i < BeginM(b.p, startN) && i < b.p.seqlenQ && 0 <= c < b.p.headdim
      ensures BlockContribution(b, startN, i, c) == 0.0
    {
      NoContribution(b, startN, i, c);
    }
  }

  lemma AllRowsAdded(b: Backward, startN: nat, dq: array2<real>, before: Tensor, rows: int)
    requires b.p.Launchable() && dq.Length0 == b.p.seqlenQ && dq.Length1 == b.p.headdim
    requires Added(b, startN, dq, before, rows) && rows >= b.p.seqlenQ
    ensures Added(b, startN, dq, before, b.p.seqlenQ)
  {
  }

  lemma NothingAccumulated(b: Backward, dv: Tensor, dk: Tensor, begin: int)
    requires b.p.Launchable() && forall j, c :: dv(j, c) == 0.0 == dk(j, c)
    ensures Accumulated(b, dv, dk, begin, begin)
  {
  }

  /** The loop over row blocks: accumulate dk and dv locally, add to dq in place. */
  method AccumulateRows(b: Backward, startN: nat, beginM: nat, dq: array2<real>, ghost before: Tensor)
    returns (dvAcc: Tensor, dkAcc: Tensor)
    requires b.p.Launchable() && beginM == BeginM(b.p, startN) && beginM < b.p.seqlenQ
    requires dq.Length0 == b.p.seqlenQ && dq.Length1 == b.p.headdim
    requires Added(b, startN, dq, before, beginM)
    modifies dq
    ensures Added(b, startN, dq, before, b.p.seqlenQ)
    ensures Accumulated(b, dvAcc, dkAcc, beginM, EndM(b.p))
  {
    hide BlockContribution, Added, Accumulated, AddValues, AddKeys, BeginM;
    dvAcc := (j, c) => 0.0;
    dkAcc := (j, c) => 0.0;
    NothingAccumulated(b, dvAcc, dkAcc, beginM);
    var numBlockM := Cdiv(b.p.seqlenQ, b.p.blockM);
    ghost var mBlock: nat := beginM / b.p.blockM;
    var startM := beginM;
    while startM < numBlockM * b.p.blockM
      invariant startM == mBlock * b.p.blockM && beginM <= startM
      invariant startM <= EndM(b.p) || startM == beginM
      invariant Added(b, startN, dq, before, startM)
      invariant Accumulated(b, dvAcc, dkAcc, beginM, startM)
      decreases numBlockM * b.p.blockM - startM
    {
      Cxx.ProductOrder(mBlock, numBlockM, b.p.blockM);
      Cxx.ProductOrder(mBlock + 1, numBlockM, b.p.blockM);
      var next := startM + b.p.blockM;
      assert next == (mBlock + 1) * b.p.blockM;
      AccumulateTile(b, dvAcc, dkAcc, beginM, startM, next);
      dvAcc := AddValues(b, dvAcc, startM, next);
      dkAcc := AddKeys(b, dkAcc, startM, next);
      AddDqTile(b, startN, startM, dq, before);
      startM := next;
      mBlock := mBlock + 1;
    }
    AllRowsAdded(b, startN, dq, before, startM);
  }

  /** One column block: keys `startN * blockN ..`, against all row blocks from `BeginM` on. */
  method BwdOneColBlock(b: Backward, startN: nat, base: nat, dq: array2<real>, dk: array2<real>, dv: array2<real>,
                        ghost before: Tensor)
    requires b.Launchable() && base == startN * b.p.blockN
    requires dq.Length0 == b.p.seqlenQ && dq.Length1 == b.p.headdim
    requires dk.Length0 == dv.Length0 == b.p.seqlenK && dk.Length1 == dv.Length1 == b.p.headdim
    requires dq != dk && dq != dv && dk != dv
    requires Added(b, startN, dq, before, 0)
    modifies dq, dk, dv
    ensures Added(b, startN, dq, before, b.p.seqlenQ)
    ensures forall j: nat :: base <= j < base + b.p.blockN && j < b.p.seqlenK ==> KeyStored(b, dk, dv, j)
    ensures forall j: nat :: j < base && j < b.p.seqlenK && old(KeyStored(b, dk, dv, j)) ==> KeyStored(b, dk, dv, j)
  {
    hide b.p.Reference, KeyStored, BlockContribution, Added, Accumulated, BeginM;
    var beginM := BeginM(b.p, startN);
    var dvAcc: Tensor := (j, c) => 0.0;
    var dkAcc: Tensor := (j, c) => 0.0;
    SkippedRows(b, startN, dq, before);
    if beginM < b.p.seqlenQ {
      dvAcc, dkAcc := AccumulateRows(b, startN, beginM, dq, before);
    }
    StoreDkDv(b, startN, base, dvAcc, dkAcc, dk, dv);
  }

  // ----- All column blocks --------------------------------------------------------------------------

  function NumBlockN(p: Kernel): nat
    requires p.blockN > 0
  {
    Cdiv(p.seqlenK, p.blockN)
  }

  /** The last column block still holds a real key. */
  lemma LastBlock(p: Kernel)
    requires p.Launchable()
    ensures NumBlockN(p) > 0 && (NumBlockN(p) - 1) * p.blockN < p.seqlenK <= NumBlockN(p) * p.blockN
  {
    var blocks := NumBlockN(p);
    if blocks > 0 {
      var previous: nat := blocks - 1;
      assert previous * p.blockN >= p.seqlenK ==> previous >= blocks;
    }
  }

  /** All column blocks together add exactly the reference query gradient. */
  lemma AllBlocksMatch(b: Backward, i: int, c: int)
    requires b.Launchable() && 0 <= i < b.p.seqlenQ && 0 <= c < b.p.headdim
    ensures Sum(0, NumBlockN(b.p) * b.p.blockN, QueryTerms(b, i, c)) == b.p.Reference().GradQ(b.dout)(i, c)
  {
    LastBlock(b.p);
    var n := NumBlockN(b.p) * b.p.blockN;
    forall j | b.p.seqlenK <= j < n ensures QueryTerms(b, i, c)(j) == 0.0 {
      b.PaddedKey(i, j, NumBlockN(b.p));
    }
    SumSupport(0, b.p.seqlenK, n, QueryTerms(b, i, c));
    QuerySumMatches(b, i, c);
  }

  function DqAfter(b: Backward, keys: int): Tensor
    requires b.p.Launchable()
  {
    (i, c) => Sum(0, keys, QueryTerms(b, i, c))
  }

  lemma NextBlock(b: Backward, startN: nat, dq: array2<real>)
    requires b.p.Launchable() && dq.Length0 == b.p.seqlenQ && dq.Length1 == b.p.headdim
    requires Added(b, startN, dq, DqAfter(b, startN * b.p.blockN), b.p.seqlenQ)
    ensures Added(b, startN + 1, dq, DqAfter(b, (startN + 1) * b.p.blockN), 0)
  {
    forall i, c | 0 <= i < b.p.seqlenQ && 0 <= c < b.p.headdim
      ensures dq[i, c] == DqAfter(b, (startN + 1) * b.p.blockN)(i, c)
    {
      assert startN * b.p.blockN >= 0 && (startN + 1) * b.p.blockN == startN * b.p.blockN + b.p.blockN;
      SumSplit(0, startN * b.p.blockN, (startN + 1) * b.p.blockN, QueryTerms(b, i, c));
    }
  }

  /**
    The backward kernel with the column blocks run one after another. After it dq, dk and dv are the
    gradients of the reference attention.
   */
  method BwdKernelSequential(b: Backward, dq: array2<real>, dk: array2<real>, dv: array2<real>)
    requires b.Launchable()
    requires dq.Length0 == b.p.seqlenQ && dq.Length1 == b.p.headdim
    requires dk.Length0 == dv.Length0 == b.p.seqlenK && dk.Length1 == dv.Length1 == b.p.headdim
    requires dq != dk && dq != dv && dk != dv
    modifies dq, dk, dv
    ensures forall i, c | 0 <= i < b.p.seqlenQ && 0 <= c < b.p.headdim ::
              dq[i, c] == b.p.Reference().GradQ(b.dout)(i, c)
    ensures forall j: nat | j < b.p.seqlenK :: KeyStored(b, dk, dv, j)
  {
    hide b.p.Reference, KeyStored, BlockContribution, BeginM;
    forall i, c | 0 <= i < b.p.seqlenQ && 0 <= c < b.p.headdim {
      dq[i, c] := 0.0;
    }
    var numBlockN := Cdiv(b.p.seqlenK, b.p.blockN);
    var base := 0;
    assert Added(b, 0, dq, DqAfter(b, 0), 0);
    for startN := 0 to numBlockN
      invariant base == startN * b.p.blockN
      invariant Added(b, startN, dq, DqAfter(b, base), 0)
      invariant forall j: nat | j < base && j < b.p.seqlenK :: KeyStored(b, dk, dv, j)
    {
      BwdOneColBlock(b, startN, base, dq, dk, dv, DqAfter(b, base));
      NextBlock(b, startN, dq);
      base := base + b.p.blockN;
      assert base == (startN + 1) * b.p.blockN;
    }
    LastBlock(b.p);
    forall i, c | 0 <= i < b.p.seqlenQ && 0 <= c < b.p.headdim
      ensures dq[i, c] == b.p.Reference().GradQ(b.dout)(i, c)
    {
      AllBlocksMatch(b, i, c);
    }
  }

  // ----- Column blocks in parallel: atomic adds in any order -------------------------------------------

  /** One atomic add to cell `(row, col)` of dq, issued by the program of column block `block`. */
  datatype AtomicAdd = AtomicAdd(block: nat, row: nat, col: nat)

  predicate Visits(p: Kernel, block: nat, row: nat)
    requires p.Launchable()
  {
    block < NumBlockN(p) && BeginM(p, block) <= row < p.seqlenQ
  }

  /** A complete run: every program has issued each of its adds once, in whatever order they landed. */
  ghost predicate CompleteRun(p: Kernel, run: seq<AtomicAdd>)
    requires p.Launchable()
  {
    && Once(run)
    && (forall block: nat, row: nat, col: nat ::
          AtomicAdd(block, row, col) in run <==> Visits(p, block, row) && col < p.headdim)
  }

  function HitsCell(i: nat, c: nat): AtomicAdd -> bool {
    (add: AtomicAdd) => add.row == i && add.col == c
  }

  function BlockOf(): AtomicAdd -> int {
    (add: AtomicAdd) => add.block
  }

  function AddedValue(b: Backward): AtomicAdd -> real
    requires b.p.Launchable()
  {
    (add: AtomicAdd) => BlockContribution(b, add.block, add.row, add.col)
  }

  /** The contents of a cell of dq, initially zero, after the adds of `run`. */
  function Cell(b: Backward, run: seq<AtomicAdd>, i: nat, c: nat): real
    requires b.p.Launchable()
  {
    Landed(run, HitsCell(i, c), AddedValue(b))
  }

  function Contributions(b: Backward, i: int, c: int): Vector
    requires b.p.Launchable()
  {
    n => if n >= 0 then BlockContribution(b, n, i, c) else 0.0
  }

  lemma {:induction false} BlocksConcatenate(b: Backward, blocks: nat, i: int, c: int)
    requires b.p.Launchable()
    ensures Sum(0, blocks, Contributions(b, i, c)) == Sum(0, blocks * b.p.blockN, QueryTerms(b, i, c))
  {
    if blocks > 0 {
      BlocksConcatenate(b, blocks - 1, i, c);
      assert (blocks - 1) * b.p.blockN >= 0 && blocks * b.p.blockN == (blocks - 1) * b.p.blockN + b.p.blockN;
      assert Contributions(b, i, c)(blocks - 1) == BlockContribution(b, blocks - 1, i, c);
      SumSplit(0, (blocks - 1) * b.p.blockN, blocks * b.p.blockN, QueryTerms(b, i, c));
    }
  }

  /** In whatever order the atomic adds land, dq ends as the reference gradient: the sequential result. */
  lemma AtomicAddsMatch(b: Backward, run: seq<AtomicAdd>, i: nat, c: nat)
    requires b.Launchable() && CompleteRun(b.p, run) && i < b.p.seqlenQ && c < b.p.headdim
    ensures Cell(b, run, i, c) == b.p.Reference().GradQ(b.dout)(i, c)
  {
    var blocks, number := NumBlockN(b.p), BlockOf();
    forall x | 0 <= x < |run| ensures run[x].block < blocks {
      assert AtomicAdd(run[x].block, run[x].row, run[x].col) in run;
    }
    forall n | 0 <= n < blocks && !Reached(run, HitsCell(i, c), number, n) ensures Contributions(b, i, c)(n) == 0.0 {
      NotReached(b, run, n, i, c);
    }
    hide BlockContribution;
    LandedIsSum(run, HitsCell(i, c), AddedValue(b), number, blocks, Contributions(b, i, c));
    BlocksConcatenate(b, blocks, i, c);
    AllBlocksMatch(b, i, c);
  }

  lemma NotReached(b: Backward, run: seq<AtomicAdd>, n: nat, i: nat, c: nat)
    requires b.Launchable() && CompleteRun(b.p, run) && n < NumBlockN(b.p) && i < b.p.seqlenQ && c < b.p.headdim
    requires !Reached(run, HitsCell(i, c), BlockOf(), n)
    ensures BlockContribution(b, n, i, c) == 0.0
  {
    assert AtomicAdd(n, i, c) !in run;
    NoContribution(b, n, i, c);
  }

  // ----- The preprocess kernel ------------------------------------------------------------------------

  /**
    The row sums of output times upstream gradient. Rows past the last query load zeros, so their sum
    is zero; the buffer then satisfies what `Backward.Launchable` asks of it.
   */
  method BwdPreprocess(p: Kernel, o: Tensor, dout: Tensor, deltas: array<real>)
    requires p.Launchable()
    requires forall i, c | 0 <= i < p.seqlenQ && 0 <= c < p.headdim :: o(i, c) == p.Reference().Output(i, c)
    requires p.seqlenQ <= deltas.Length
    modifies deltas
    ensures forall i | 0 <= i < p.seqlenQ :: deltas[i] == p.Reference().Delta(dout, i)
    ensures forall i | p.seqlenQ <= i < deltas.Length :: deltas[i] == 0.0
  {
    hide Inner;
    for i := 0 to deltas.Length
      invariant forall i' | 0 <= i' < i && i' < p.seqlenQ :: deltas[i'] == p.Reference().Delta(dout, i')
      invariant forall i' | p.seqlenQ <= i' < i :: deltas[i'] == 0.0
    {
      var oRow: Vector := c => if i < p.seqlenQ && c < p.headdim then o(i, c) else 0.0;
      var doRow: Vector := c => if i < p.seqlenQ && c < p.headdim then dout(i, c) else 0.0;
      deltas[i] := Inner(p.blockHeaddim, doRow, oRow);
      DeltaMatches(p, o, dout, i, doRow, oRow);
    }
  }

  lemma DeltaMatches(p: Kernel, o: Tensor, dout: Tensor, i: nat, doRow: Vector, oRow: Vector)
    requires p.Launchable()
    requires forall i, c | 0 <= i < p.seqlenQ && 0 <= c < p.headdim :: o(i, c) == p.Reference().Output(i, c)
    requires forall c :: doRow(c) == if i < p.seqlenQ && c < p.headdim then dout(i, c) else 0.0
    requires forall c :: oRow(c) == if i < p.seqlenQ && c < p.headdim then o(i, c) else 0.0
    ensures i < p.seqlenQ ==> Inner(p.blockHeaddim, doRow, oRow) == p.Reference().Delta(dout, i)
    ensures i >= p.seqlenQ ==> Inner(p.blockHeaddim, doRow, oRow) == 0.0
  {
    if i < p.seqlenQ {
      forall c | 0 <= c < p.headdim ensures oRow(c) == p.Reference().OutputRow(i)(c) {
      }
      hide p.Reference;
      p.PaddedDot(doRow, oRow, Row(dout, i), p.Reference().OutputRow(i));
    } else {
      SumZero(0, p.blockHeaddim, Products(doRow, oRow));
    }
  }
}
