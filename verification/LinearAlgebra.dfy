/**
  Inner products and linear combinations of tensor rows.

  A tensor is a total function of its indices; its extents are passed separately. Values outside
  the extents stand for whatever lies in memory there, so no statement may depend on them.
 */
module LinearAlgebra {
  import opened RealSums

  type Vector = int -> real
  type Tensor = (int, int) -> real

  function Row(t: Tensor, i: int): Vector {
    c => t(i, c)
  }

  function Column(t: Tensor, c: int): Vector {
    i => t(i, c)
  }

  function Products(x: Vector, y: Vector): Vector {
    c => x(c) * y(c)
  }

  /** The inner product of the first `d` entries. */
  function Inner(d: int, x: Vector, y: Vector): real {
    Sum(0, d, Products(x, y))
  }

  /** The combination of the first `n` rows of `b` with coefficients `g`. */
  function Combination(n: int, g: Vector, b: Tensor): Vector {
    c => Inner(n, g, Column(b, c))
  }

  /** The inner products of `a` with the rows of `b`. */
  function RowInners(d: int, a: Vector, b: Tensor): Vector {
    j => Inner(d, a, Row(b, j))
  }

  function Scaled(a: real, x: Vector): Vector {
    c => a * x(c)
  }

  function Plus(x: Vector, y: Vector): Vector {
    c => x(c) + y(c)
  }

  function Zeros(): Vector {
    c => 0.0
  }

  function ScaleRow(acc: Vector, factor: real): Vector {
    c => acc(c) * factor
  }

  ghost predicate Agree(d: int, x: Vector, y: Vector) {
    forall c | 0 <= c < d :: x(c) == y(c)
  }

  lemma InnerCongruence(d: int, x: Vector, y: Vector, x': Vector, y': Vector)
    requires Agree(d, x, x') && Agree(d, y, y')
    ensures Inner(d, x, y) == Inner(d, x', y')
  {
    SumCongruence(0, d, Products(x, y), Products(x', y'));
  }

  lemma InnerCommutes(d: int, x: Vector, y: Vector)
    ensures Inner(d, x, y) == Inner(d, y, x)
  {
    SumCongruence(0, d, Products(x, y), Products(y, x));
  }

  lemma InnerScaled(d: int, a: real, x: Vector, y: Vector)
    ensures Inner(d, Scaled(a, x), y) == a * Inner(d, x, y)
    ensures Inner(d, y, Scaled(a, x)) == a * Inner(d, y, x)
  {
    forall c | 0 <= c < d ensures Products(Scaled(a, x), y)(c) == a * Products(x, y)(c) {
      MulAssociates(a, x(c), y(c));
    }
    SumScale(0, d, a, Products(x, y), Products(Scaled(a, x), y));
    InnerCommutes(d, Scaled(a, x), y);
    InnerCommutes(d, x, y);
  }

  lemma InnerPlus(d: int, x: Vector, x': Vector, y: Vector)
    ensures Inner(d, Plus(x, x'), y) == Inner(d, x, y) + Inner(d, x', y)
    ensures Inner(d, y, Plus(x, x')) == Inner(d, y, x) + Inner(d, y, x')
  {
    forall c | 0 <= c < d ensures Products(Plus(x, x'), y)(c) == Products(x, y)(c) + Products(x', y)(c) {
      MulDistributes(x(c), x'(c), y(c));
    }
    SumAdd(0, d, Products(x, y), Products(x', y), Products(Plus(x, x'), y));
    InnerCommutes(d, Plus(x, x'), y);
    InnerCommutes(d, x, y);
    InnerCommutes(d, x', y);
  }

  lemma SumScaled(lo: int, hi: int, a: real, x: Vector)
    ensures Sum(lo, hi, Scaled(a, x)) == a * Sum(lo, hi, x)
  {
    SumScale(lo, hi, a, x, Scaled(a, x));
  }

  lemma SumPlus(lo: int, hi: int, x: Vector, y: Vector)
    ensures Sum(lo, hi, Plus(x, y)) == Sum(lo, hi, x) + Sum(lo, hi, y)
  {
    SumAdd(lo, hi, x, y, Plus(x, y));
  }

  lemma MulCongruence(x: real, y: real, x': real, y': real)
    requires x == x' && y == y'
    ensures x * y == x' * y'
  {
  }

  lemma MulAssociates(a: real, b: real, c: real)
    ensures a * b * c == a * (b * c)
  {
  }

  lemma MulDistributes(a: real, b: real, c: real)
    ensures (a + b) * c == a * c + b * c
  {
  }

  /** Combining rows and taking inner products with rows are adjoint to each other. */
  lemma CombinationAdjoint(n: int, d: int, g: Vector, a: Vector, b: Tensor)
    ensures Inner(n, g, RowInners(d, a, b)) == Inner(d, a, Combination(n, g, b))
  {
    var term: Tensor := (j, c) => g(j) * (a(c) * b(j, c));
    forall j | 0 <= j < n
      ensures Products(g, RowInners(d, a, b))(j) == RowSums(0, d, term)(j)
    {
      SumScale(0, d, g(j), Products(a, Row(b, j)), c => term(j, c));
    }
    forall c | 0 <= c < d
      ensures Products(a, Combination(n, g, b))(c) == ColSums(0, n, term)(c)
    {
      forall j | 0 <= j < n ensures term(j, c) == a(c) * Products(g, Column(b, c))(j) {
        MulAssociates(g(j), a(c), b(j, c));
        MulAssociates(a(c), g(j), b(j, c));
      }
      SumScale(0, n, a(c), Products(g, Column(b, c)), j => term(j, c));
    }
    SumCongruence(0, n, Products(g, RowInners(d, a, b)), RowSums(0, d, term));
    SumCongruence(0, d, Products(a, Combination(n, g, b)), ColSums(0, n, term));
    SumSwap(0, n, 0, d, term);
  }

  /** The inner product of two tensors of extent `n` by `d`. */
  function Pairing(n: int, d: int, x: Tensor, y: Tensor): real {
    Sum(0, n, RowPairings(d, x, y))
  }

  function RowPairings(d: int, x: Tensor, y: Tensor): Vector {
    i => Inner(d, Row(x, i), Row(y, i))
  }

  /** Row by row, coefficients `g` against the inner products of rows of `a` and rows of `b`. */
  function RowBilinear(m: int, d: int, g: Tensor, a: Tensor, b: Tensor): Vector {
    i => Inner(m, Row(g, i), RowInners(d, Row(a, i), b))
  }

  /** The rows of `b` against the combinations of the rows of `a` by the columns of `g`. */
  function ColumnBilinear(n: int, d: int, g: Tensor, a: Tensor, b: Tensor): Vector {
    j => Inner(d, Row(b, j), Combination(n, Column(g, j), a))
  }

  function BilinearTerm(d: int, g: Tensor, a: Tensor, b: Tensor): Tensor {
    (i, j) => g(i, j) * Inner(d, Row(a, i), Row(b, j))
  }

  lemma ColumnBilinearTerm(n: int, d: int, g: Tensor, a: Tensor, b: Tensor, j: int)
    ensures ColumnBilinear(n, d, g, a, b)(j) == ColSums(0, n, BilinearTerm(d, g, a, b))(j)
  {
    CombinationAdjoint(n, d, Column(g, j), Row(b, j), a);
    forall i | 0 <= i < n
      ensures Products(Column(g, j), RowInners(d, Row(b, j), a))(i) == BilinearTerm(d, g, a, b)(i, j)
    {
      InnerCommutes(d, Row(b, j), Row(a, i));
    }
    SumCongruence(0, n, Products(Column(g, j), RowInners(d, Row(b, j), a)), i => BilinearTerm(d, g, a, b)(i, j));
  }

  lemma RowBilinearTerm(m: int, d: int, g: Tensor, a: Tensor, b: Tensor, i: int)
    ensures RowBilinear(m, d, g, a, b)(i) == RowSums(0, m, BilinearTerm(d, g, a, b))(i)
  {
    forall j | 0 <= j < m
      ensures Products(Row(g, i), RowInners(d, Row(a, i), b))(j) == BilinearTerm(d, g, a, b)(i, j)
    {
      assert RowInners(d, Row(a, i), b)(j) == Inner(d, Row(a, i), Row(b, j));
    }
    SumCongruence(0, m, Products(Row(g, i), RowInners(d, Row(a, i), b)), j => BilinearTerm(d, g, a, b)(i, j));
  }

  /** Summing a bilinear form by rows or by columns gives the same number. */
  lemma BilinearTranspose(n: int, m: int, d: int, g: Tensor, a: Tensor, b: Tensor)
    ensures Sum(0, n, RowBilinear(m, d, g, a, b)) == Sum(0, m, ColumnBilinear(n, d, g, a, b))
  {
    forall i | 0 <= i < n
      ensures RowBilinear(m, d, g, a, b)(i) == RowSums(0, m, BilinearTerm(d, g, a, b))(i)
    {
      RowBilinearTerm(m, d, g, a, b, i);
    }
    forall j | 0 <= j < m
      ensures ColumnBilinear(n, d, g, a, b)(j) == ColSums(0, n, BilinearTerm(d, g, a, b))(j)
    {
      ColumnBilinearTerm(n, d, g, a, b, j);
    }
    SumCongruence(0, n, RowBilinear(m, d, g, a, b), RowSums(0, m, BilinearTerm(d, g, a, b)));
    SumCongruence(0, m, ColumnBilinear(n, d, g, a, b), ColSums(0, n, BilinearTerm(d, g, a, b)));
    SumSwap(0, n, 0, m, BilinearTerm(d, g, a, b));
  }
}
