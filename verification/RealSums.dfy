/**
  Finite sums of reals, the only analysis the attention proofs need besides `exp` and `log`.
  Every lemma takes the functions involved as arguments, so that callers name their terms once.
 */
module RealSums {

  /** The sum of `f(lo) + ... + f(hi - 1)`; an empty range sums to zero. */
  function Sum(lo: int, hi: int, f: int -> real): real
    decreases hi - lo
  {
    if lo >= hi then 0.0 else Sum(lo, hi - 1, f) + f(hi - 1)
  }

  lemma {:induction false} SumCongruence(lo: int, hi: int, f: int -> real, g: int -> real)
    requires forall i | lo <= i < hi :: f(i) == g(i)
    ensures Sum(lo, hi, f) == Sum(lo, hi, g)
    decreases hi - lo
  {
    if lo < hi {
      SumCongruence(lo, hi - 1, f, g);
    }
  }

  lemma {:induction false} SumSplit(lo: int, mid: int, hi: int, f: int -> real)
    requires lo <= mid <= hi
    ensures Sum(lo, hi, f) == Sum(lo, mid, f) + Sum(mid, hi, f)
    decreases hi - mid
  {
    if mid < hi {
      SumSplit(lo, mid, hi - 1, f);
    }
  }

  lemma {:induction false} SumZero(lo: int, hi: int, f: int -> real)
    requires forall i | lo <= i < hi :: f(i) == 0.0
    ensures Sum(lo, hi, f) == 0.0
    decreases hi - lo
  {
    if lo < hi {
      SumZero(lo, hi - 1, f);
    }
  }

  /** Widening a range by indices whose terms vanish changes nothing. */
  lemma SumSupport(lo: int, mid: int, hi: int, f: int -> real)
    requires lo <= mid <= hi
    requires forall i | mid <= i < hi :: f(i) == 0.0
    ensures Sum(lo, hi, f) == Sum(lo, mid, f)
  {
    SumSplit(lo, mid, hi, f);
    SumZero(mid, hi, f);
  }

  lemma {:induction false} SumScale(lo: int, hi: int, a: real, f: int -> real, g: int -> real)
    requires forall i | lo <= i < hi :: g(i) == a * f(i)
    ensures Sum(lo, hi, g) == a * Sum(lo, hi, f)
    decreases hi - lo
  {
    if lo < hi {
      SumScale(lo, hi - 1, a, f, g);
    }
  }

  lemma {:induction false} SumAdd(lo: int, hi: int, f: int -> real, g: int -> real, h: int -> real)
    requires forall i | lo <= i < hi :: h(i) == f(i) + g(i)
    ensures Sum(lo, hi, h) == Sum(lo, hi, f) + Sum(lo, hi, g)
    decreases hi - lo
  {
    if lo < hi {
      SumAdd(lo, hi - 1, f, g, h);
    }
  }

  /** Terms in [0, top] sum to at most `top` times their number. */
  lemma {:induction false} SumBounds(lo: int, hi: int, f: int -> real)
    requires lo <= hi
    requires forall i | lo <= i < hi :: 0.0 <= f(i) <= 1.0
    ensures 0.0 <= Sum(lo, hi, f) <= (hi - lo) as real
    decreases hi - lo
  {
    if lo < hi {
      SumBounds(lo, hi - 1, f);
    }
  }

  lemma {:induction false} SumNonNegative(lo: int, hi: int, f: int -> real)
    requires forall i | lo <= i < hi :: f(i) >= 0.0
    ensures Sum(lo, hi, f) >= 0.0
    decreases hi - lo
  {
    if lo < hi {
      SumNonNegative(lo, hi - 1, f);
    }
  }

  /** A sum of nonnegative terms is at least any one of them. */
  lemma SumAtLeast(lo: int, hi: int, f: int -> real, k: int)
    requires lo <= k < hi
    requires forall i | lo <= i < hi :: f(i) >= 0.0
    ensures Sum(lo, hi, f) >= f(k)
  {
    SumSplit(lo, k, hi, f);
    SumSplit(k, k + 1, hi, f);
    SumNonNegative(lo, k, f);
    SumNonNegative(k + 1, hi, f);
    assert Sum(k, k + 1, f) == Sum(k, k, f) + f(k);
  }

  /** A sum with a single possibly nonzero term is that term. */
  lemma SumSingle(lo: int, hi: int, f: int -> real, k: int)
    requires lo <= k < hi
    requires forall i | lo <= i < hi && i != k :: f(i) == 0.0
    ensures Sum(lo, hi, f) == f(k)
  {
    SumSplit(lo, k, hi, f);
    SumSplit(k, k + 1, hi, f);
    SumZero(lo, k, f);
    SumZero(k + 1, hi, f);
    assert Sum(k, k + 1, f) == Sum(k, k, f) + f(k);
  }

  /** Reindexing by a translation. */
  lemma {:induction false} SumShift(lo: int, hi: int, shift: int, f: int -> real, g: int -> real)
    requires forall i | lo <= i < hi :: g(i) == f(i + shift)
    ensures Sum(lo, hi, g) == Sum(lo + shift, hi + shift, f)
    decreases hi - lo
  {
    if lo < hi {
      SumShift(lo, hi - 1, shift, f, g);
    }
  }

  /** The inner sums of a double sum, by rows. */
  function RowSums(lo: int, hi: int, f: (int, int) -> real): int -> real {
    i => Sum(lo, hi, j => f(i, j))
  }

  /** The inner sums of a double sum, by columns. */
  function ColSums(lo: int, hi: int, f: (int, int) -> real): int -> real {
    j => Sum(lo, hi, i => f(i, j))
  }

  /** The order of a finite double sum does not matter. */
  lemma {:induction false} SumSwap(lo: int, hi: int, lo2: int, hi2: int, f: (int, int) -> real)
    ensures Sum(lo, hi, RowSums(lo2, hi2, f)) == Sum(lo2, hi2, ColSums(lo, hi, f))
    decreases hi - lo
  {
    if lo >= hi {
      SumZero(lo2, hi2, ColSums(lo, hi, f));
    } else {
      SumSwap(lo, hi - 1, lo2, hi2, f);
      var last := j => f(hi - 1, j);
      forall j | lo2 <= j < hi2
        ensures ColSums(lo, hi, f)(j) == ColSums(lo, hi - 1, f)(j) + last(j)
      {
        var col := i => f(i, j);
        assert Sum(lo, hi, col) == Sum(lo, hi - 1, col) + col(hi - 1);
      }
      SumAdd(lo2, hi2, ColSums(lo, hi - 1, f), last, ColSums(lo, hi, f));
      assert RowSums(lo2, hi2, f)(hi - 1) == Sum(lo2, hi2, last);
    }
  }
}
