/**
  Atomic additions of reals to one memory cell. Which of them lands first makes no difference: the cell
  ends as the sum of what was added.
 */
module AtomicAdds {
  import opened RealSums

  /** A cell, initially zero, after those adds of `run` that hit it, in the order of `run`. */
  function Landed<K>(run: seq<K>, hits: K -> bool, value: K -> real): real {
    if run == [] then 0.0
    else
      var add := run[|run| - 1];
      Landed(run[..|run| - 1], hits, value) + if hits(add) then value(add) else 0.0
  }

  ghost predicate Once<K>(run: seq<K>) {
    forall x, y | 0 <= x < y < |run| :: run[x] != run[y]
  }

  /** Different adds that hit the cell have different numbers below `n`. */
  ghost predicate Numbered<K>(run: seq<K>, hits: K -> bool, number: K -> int, n: int) {
    && (forall x | 0 <= x < |run| && hits(run[x]) :: 0 <= number(run[x]) < n)
    && (forall x, y | 0 <= x < y < |run| && hits(run[x]) && hits(run[y]) :: number(run[x]) != number(run[y]))
  }

  /** Some add with number `j` hits the cell. */
  ghost predicate Reached<K>(run: seq<K>, hits: K -> bool, number: K -> int, j: int) {
    exists x :: 0 <= x < |run| && hits(run[x]) && number(run[x]) == j
  }

  /** Term `j` is the value of the add with number `j`, or zero if there is none. */
  ghost predicate Lists<K>(run: seq<K>, hits: K -> bool, value: K -> real, number: K -> int, n: int, terms: int -> real)
  {
    && (forall x | 0 <= x < |run| && hits(run[x]) :: terms(number(run[x])) == value(run[x]))
    && (forall j | 0 <= j < n && !Reached(run, hits, number, j) :: terms(j) == 0.0)
  }

  /** Real addition forgets the order: the cell is the sum of the terms by number. */
  lemma {:induction false} LandedIsSum<K>(
    run: seq<K>, hits: K -> bool, value: K -> real, number: K -> int, n: int, terms: int -> real)
    requires Numbered(run, hits, number, n) && Lists(run, hits, value, number, n, terms)
    ensures Landed(run, hits, value) == Sum(0, n, terms)
    decreases |run|
  {
    if run == [] {
      SumZero(0, n, terms);
    } else {
      var shorter, add := run[..|run| - 1], run[|run| - 1];
      var rest: int -> real := j => if hits(add) && j == number(add) then 0.0 else terms(j);
      forall j | 0 <= j < n && !Reached(shorter, hits, number, j) ensures rest(j) == 0.0 {
        ReachedByLast(run, hits, number, j);
      }
      LandedIsSum(shorter, hits, value, number, n, rest);
      if hits(add) {
        SumUpdate(0, n, rest, terms, number(add), value(add));
      } else {
        SumCongruence(0, n, rest, terms);
      }
    }
  }

  lemma ReachedByLast<K>(run: seq<K>, hits: K -> bool, number: K -> int, j: int)
    requires run != [] && !Reached(run[..|run| - 1], hits, number, j)
    ensures Reached(run, hits, number, j) ==> hits(run[|run| - 1]) && number(run[|run| - 1]) == j
  {
    var shorter := run[..|run| - 1];
    forall x | 0 <= x < |shorter| ensures !(hits(run[x]) && number(run[x]) == j) {
      assert shorter[x] == run[x];
    }
  }

  lemma SumUpdate(lo: int, hi: int, f: int -> real, g: int -> real, k: int, x: real)
    requires lo <= k < hi && g(k) == f(k) + x
    requires forall i | lo <= i < hi && i != k :: g(i) == f(i)
    ensures Sum(lo, hi, g) == Sum(lo, hi, f) + x
  {
    var single: int -> real := i => if i == k then x else 0.0;
    SumAdd(lo, hi, f, single, g);
    SumSingle(lo, hi, single, k);
  }
}
