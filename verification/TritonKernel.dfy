/**
  What the Triton forward and backward kernels share: the launch parameters, the masked loads, the
  recomputed scores, and the attention problem that both are meant to solve.

  One `Kernel` value is one (batch, head) pair; strides are not modelled.
 */
module TritonKernel {
  import opened RealSums
  import opened ExpLogs
  import opened LinearAlgebra
  import opened Attention
  import Cxx = CxxArithmetic

  datatype BiasKind = NoBias | VectorBias | MatrixBias

  /** `triton.cdiv`, the ceiling division of a count by a block size. */
  function Cdiv(n: nat, block: nat): (blocks: nat)
    requires block > 0
    ensures blocks * block >= n
    ensures forall b: nat | b * block >= n :: b >= blocks
  {
    CdivBounds(n, block);
    (n + block - 1) / block
  }

  lemma CdivBounds(n: nat, block: nat)
    requires block > 0
    ensures var blocks := (n + block - 1) / block;
            blocks >= 0 && blocks * block >= n && forall b: nat | b * block >= n :: b >= blocks
  {
    var blocks := (n + block - 1) / block;
    assert n + block - 1 == blocks * block + (n + block - 1) % block;
    forall b: nat | b * block >= n ensures b >= blocks {
      if b < blocks {
        Cxx.ProductOrder(b, blocks, block);
      }
    }
  }

  datatype Kernel = Kernel(
    el: ExpLog,
    seqlenQ: nat, seqlenK: nat, headdim: nat,
    softmaxScale: real,
    q: Tensor, k: Tensor, v: Tensor, bias: Tensor,
    biasKind: BiasKind,
    isCausal: bool,
    blockHeaddim: nat, blockM: nat, blockN: nat)
  {
    /** What the launch wrapper guarantees: positive tiles, a padded head dimension, a positive scale. */
    ghost predicate Launchable() {
      && el.Valid()
      && seqlenK > 0
      && softmaxScale > 0.0
      && blockM > 0 && blockN > 0
      && headdim <= blockHeaddim
    }

    predicate EvenM()
      requires blockM > 0
    {
      seqlenQ % blockM == 0
    }

    predicate EvenN()
      requires blockN > 0
    {
      seqlenK % blockN == 0
    }

    predicate EvenHeaddim() {
      headdim == blockHeaddim
    }

    /** A load whose row mask is needed unless `even`; masked-out elements read as zero. */
    function Load(t: Tensor, row: int, c: int, rows: nat, even: bool): real {
      if (even || row < rows) && (EvenHeaddim() || c < headdim) then t(row, c) else 0.0
    }

    function LoadQ(i: int): Vector
      requires blockM > 0 && blockN > 0
    {
      var even := EvenM() && EvenN();
      c => Load(q, i, c, seqlenQ, even)
    }

    function LoadK(j: int): Vector
      requires blockM > 0 && blockN > 0
    {
      var even := EvenM() && EvenN();
      c => Load(k, j, c, seqlenK, even)
    }

    function LoadV(): Tensor
      requires blockM > 0 && blockN > 0
    {
      var even := EvenM() && EvenN();
      (j, c) => Load(v, j, c, seqlenK, even)
    }

    function LoadBias(i: int, j: int): real
      requires blockM > 0 && blockN > 0
    {
      match biasKind
      case NoBias => 0.0
      case VectorBias => if EvenN() || j < seqlenK then bias(0, j) else 0.0
      case MatrixBias => if (EvenM() && EvenN()) || (i < seqlenQ && j < seqlenK) then bias(i, j) else 0.0
    }

    /** The dot product of query `i` and key `j` after the tail mask and the causal mask. */
    function MaskedDot(i: int, j: int): Ext
      requires blockM > 0 && blockN > 0
    {
      if !EvenN() && !(j < seqlenK) then NegInf
      else if isCausal && !(i >= j) then NegInf
      else Fin(Inner(blockHeaddim, LoadQ(i), LoadK(j)))
    }

    function MaskedDots(i: int): int -> Ext
      requires blockM > 0 && blockN > 0
    {
      j => MaskedDot(i, j)
    }

    /** The score whose exponential is taken, with scale and bias applied. */
    function ScaledScores(i: int): int -> Ext
      requires blockM > 0 && blockN > 0 && softmaxScale > 0.0
    {
      j => AddExt(ScaleExt(MaskedDot(i, j), softmaxScale), LoadBias(i, j))
    }

    /** The attention problem the kernel solves: the causal mask compares absolute positions. */
    function Reference(): Problem {
      Problem(el, seqlenQ, seqlenK, headdim, softmaxScale, q, k, v, ReferenceBias(),
              (i, j) => isCausal ==> i >= j)
    }

    function ReferenceBias(): Tensor {
      (i, j) => match biasKind
                case NoBias => 0.0
                case VectorBias => bias(0, j)
                case MatrixBias => bias(i, j)
    }

    /** Every row of the launch has a key, so its log-sum-exp is meaningful. */
    lemma RowHasKey(i: int)
      requires Launchable() && 0 <= i
      ensures Reference().HasKey(i)
    {
      assert 0 <= 0 < Reference().seqlenK && Reference().allowed(i, 0);
    }

    /** Padding the head dimension with zeros leaves dot products unchanged. */
    lemma PaddedDot(x: Vector, y: Vector, x': Vector, y': Vector)
      requires headdim <= blockHeaddim
      requires forall c | 0 <= c < headdim :: x(c) == x'(c) && y(c) == y'(c)
      requires !EvenHeaddim() ==> forall c | headdim <= c < blockHeaddim :: x(c) == 0.0
      ensures Inner(blockHeaddim, x, y) == Inner(headdim, x', y')
    {
      SumSupport(0, headdim, blockHeaddim, Products(x, y));
      InnerCongruence(headdim, x, y, x', y');
    }

    lemma DotMatches(i: int, j: int)
      requires Launchable() && 0 <= i < seqlenQ && 0 <= j < seqlenK
      ensures Inner(blockHeaddim, LoadQ(i), LoadK(j)) == Inner(headdim, Row(q, i), Row(k, j))
    {
      forall c
        ensures 0 <= c < headdim ==> LoadQ(i)(c) == Row(q, i)(c) && LoadK(j)(c) == Row(k, j)(c)
        ensures !EvenHeaddim() && headdim <= c ==> LoadQ(i)(c) == 0.0
      {
        assert LoadQ(i)(c) == Load(q, i, c, seqlenQ, EvenM() && EvenN());
        assert LoadK(j)(c) == Load(k, j, c, seqlenK, EvenM() && EvenN());
      }
      PaddedDot(LoadQ(i), LoadK(j), Row(q, i), Row(k, j));
    }

    /** For a real query and a real key the kernel's score is the reference score, or masked with it. */
    lemma ScoreMatches(i: int, j: int)
      requires Launchable() && 0 <= i < seqlenQ && 0 <= j < seqlenK
      ensures ScaledScores(i)(j) == if isCausal && i < j then NegInf else Fin(Reference().Score(i, j))
      ensures ExpExt(el, ScaledScores(i)(j)) == Reference().Weight(i, j)
    {
      DotMatches(i, j);
      hide Inner;
    }

    /** When the tile width divides the key count, the last tile ends within the keys. */
    lemma EvenTilesEnd(tiles: nat)
      requires blockN > 0 && EvenN() && (tiles > 0 ==> (tiles - 1) * blockN < seqlenK)
      ensures tiles * blockN <= seqlenK
    {
      var whole := seqlenK / blockN;
      assert seqlenK == whole * blockN;
      if tiles > 0 {
        Cxx.ProductOrder(tiles - 1, whole, blockN);
      }
      Cxx.ProductOrder(tiles, whole, blockN);
    }

    /** The columns past the last key that a tile can reach carry no weight. */
    lemma TailMasked(i: int, j: int, tiles: nat)
      requires Launchable() && seqlenK <= j < tiles * blockN
      requires tiles > 0 ==> (tiles - 1) * blockN < seqlenK
      ensures ExpExt(el, ScaledScores(i)(j)) == 0.0
    {
      if EvenN() {
        EvenTilesEnd(tiles);
      }
    }
  }
}
