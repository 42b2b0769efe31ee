/**
  Sequences as the packed layouts use them: concatenation of parts and sums of lengths.
 */
module Sequences {

  function Concat<T>(parts: seq<seq<T>>): seq<T> {
    if parts == [] then [] else Concat(parts[..|parts| - 1]) + parts[|parts| - 1]
  }

  lemma Regroup<T>(a: seq<T>, b: seq<T>, c: seq<T>)
    ensures (a + b) + c == a + (b + c)
  {
  }

  lemma ConcatPrefix<T>(parts: seq<seq<T>>, n: nat)
    requires 0 < n <= |parts|
    ensures Concat(parts[..n]) == Concat(parts[..n - 1]) + parts[n - 1]
  {
    assert parts[..n][..n - 1] == parts[..n - 1];
  }

  function Total(xs: seq<int>): (t: int)
    ensures (forall i | 0 <= i < |xs| :: xs[i] >= 0) ==> t >= 0
  {
    if xs == [] then 0 else Total(xs[..|xs| - 1]) + xs[|xs| - 1]
  }

  lemma {:induction false} TotalUpdate(xs: seq<int>, i: nat, v: int)
    requires i < |xs|
    ensures Total(xs[i := v]) == Total(xs) - xs[i] + v
  {
    var n := |xs| - 1;
    if i < n {
      TotalUpdate(xs[..n], i, v);
      assert xs[i := v][..n] == xs[..n][i := v];
    } else {
      assert xs[i := v][..n] == xs[..n];
    }
  }

  lemma {:induction false} TotalConstant(xs: seq<int>, v: int)
    requires forall i | 0 <= i < |xs| :: xs[i] == v
    ensures Total(xs) == |xs| * v
  {
    if xs != [] {
      TotalConstant(xs[..|xs| - 1], v);
      assert (|xs| - 1) * v + v == |xs| * v;
    }
  }

  lemma {:induction false} TotalAppend(x: seq<int>, y: seq<int>)
    ensures Total(x + y) == Total(x) + Total(y)
  {
    if y == [] {
      assert x + y == x;
    } else {
      TotalAppend(x, y[..|y| - 1]);
      assert (x + y)[..|x + y| - 1] == x + y[..|y| - 1];
    }
  }
}
