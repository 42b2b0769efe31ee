/**
  A stable sort of indices by key, ascending or descending, as `sorted(range(n), key=...)` and
  `sort(stable=True).indices` compute it.
 */
module StableSorting {

  /** Whether index `i` comes before index `j` in a stable sort. */
  predicate Before(keys: seq<real>, descending: bool, i: nat, j: nat)
    requires i < |keys| && j < |keys|
  {
    if keys[i] == keys[j] then i < j
    else if descending then keys[i] > keys[j]
    else keys[i] < keys[j]
  }

  ghost predicate Permutation(p: seq<nat>, n: nat) {
    && |p| == n
    && (forall k | 0 <= k < n :: p[k] < n)
    && (forall k, l | 0 <= k < l < n :: p[k] != p[l])
    && (forall v: nat | v < n :: v in p)
  }

  ghost predicate StableSorted(keys: seq<real>, descending: bool, p: seq<nat>) {
    Permutation(p, |keys|) && forall k, l | 0 <= k < l < |keys| :: Before(keys, descending, p[k], p[l])
  }

  /** Inserts an index that is larger than all indices sorted so far. */
  function Insert(keys: seq<real>, descending: bool, sorted: seq<nat>, i: nat): (r: seq<nat>)
    requires i < |keys| && forall k | 0 <= k < |sorted| :: sorted[k] < |keys|
    ensures |r| == |sorted| + 1
    ensures forall x :: x in r <==> x in sorted || x == i
  {
    if sorted == [] then [i]
    else
      var last := sorted[|sorted| - 1];
      assert sorted == sorted[..|sorted| - 1] + [last];
      if Before(keys, descending, last, i) then sorted + [i]
      else Insert(keys, descending, sorted[..|sorted| - 1], i) + [last]
  }

  /** Indices below `n`, in the order of a stable sort. */
  ghost predicate Ordered(keys: seq<real>, descending: bool, p: seq<nat>, n: nat) {
    && (forall k | 0 <= k < |p| :: p[k] < n && p[k] < |keys|)
    && (forall k, l | 0 <= k < l < |p| :: p[k] != p[l] && Before(keys, descending, p[k], p[l]))
  }

  lemma OrderedAppend(keys: seq<real>, descending: bool, p: seq<nat>, x: nat, n: nat)
    requires Ordered(keys, descending, p, n) && x < n && x < |keys|
    requires forall k | 0 <= k < |p| :: p[k] != x && Before(keys, descending, p[k], x)
    ensures Ordered(keys, descending, p + [x], n)
  {
  }

  lemma InsertUnfolds(keys: seq<real>, descending: bool, sorted: seq<nat>, i: nat)
    requires i < |keys| && sorted != [] && forall k | 0 <= k < |sorted| :: sorted[k] < |keys|
    ensures var last, shorter := sorted[|sorted| - 1], sorted[..|sorted| - 1];
            Insert(keys, descending, sorted, i)
            == if Before(keys, descending, last, i) then sorted + [i] else Insert(keys, descending, shorter, i) + [last]
  {
  }

  /** What has been inserted before the last comes before the last. */
  lemma InsertedBefore(keys: seq<real>, descending: bool, sorted: seq<nat>, i: nat)
    requires i < |keys| && sorted != [] && Ordered(keys, descending, sorted, i)
    requires !Before(keys, descending, sorted[|sorted| - 1], i)
    ensures var last, r := sorted[|sorted| - 1], Insert(keys, descending, sorted[..|sorted| - 1], i);
            forall k | 0 <= k < |r| :: r[k] < |keys| && r[k] != last && Before(keys, descending, r[k], last)
  {
    var last, shorter := sorted[|sorted| - 1], sorted[..|sorted| - 1];
    var r := Insert(keys, descending, shorter, i);
    hide Insert;
    forall k | 0 <= k < |r| ensures r[k] < |keys| && r[k] != last && Before(keys, descending, r[k], last) {
      assert r[k] in r;
    }
  }

  lemma {:induction false} InsertOrdered(keys: seq<real>, descending: bool, sorted: seq<nat>, i: nat)
    requires i < |keys| && Ordered(keys, descending, sorted, i)
    ensures Ordered(keys, descending, Insert(keys, descending, sorted, i), i + 1)
  {
    if sorted != [] {
      var last, shorter := sorted[|sorted| - 1], sorted[..|sorted| - 1];
      hide Insert, Before;
      InsertUnfolds(keys, descending, sorted, i);
      if Before(keys, descending, last, i) {
        OrderedBefore(keys, descending, sorted, i);
        OrderedAppend(keys, descending, sorted, i, i + 1);
      } else {
        InsertOrdered(keys, descending, shorter, i);
        InsertedBefore(keys, descending, sorted, i);
        OrderedAppend(keys, descending, Insert(keys, descending, shorter, i), last, i + 1);
      }
    }
  }

  /** What comes before the last of an ordered list comes before what the last comes before. */
  lemma OrderedBefore(keys: seq<real>, descending: bool, sorted: seq<nat>, i: nat)
    requires i < |keys| && sorted != [] && Ordered(keys, descending, sorted, i)
    requires Before(keys, descending, sorted[|sorted| - 1], i)
    ensures Ordered(keys, descending, sorted, i + 1)
    ensures forall k | 0 <= k < |sorted| :: sorted[k] != i && Before(keys, descending, sorted[k], i)
  {
    forall k | 0 <= k < |sorted| - 1 ensures Before(keys, descending, sorted[k], i) {
      assert Before(keys, descending, sorted[k], sorted[|sorted| - 1]);
    }
  }

  function SortedPrefix(keys: seq<real>, descending: bool, n: nat): (p: seq<nat>)
    requires n <= |keys|
    ensures |p| == n && forall x: nat :: x in p <==> x < n
  {
    if n == 0 then []
    else
      var p := SortedPrefix(keys, descending, n - 1);
      assert forall k | 0 <= k < |p| :: p[k] in p;
      Insert(keys, descending, p, n - 1)
  }

  lemma {:induction false} SortedPrefixOrdered(keys: seq<real>, descending: bool, n: nat)
    requires n <= |keys|
    ensures Ordered(keys, descending, SortedPrefix(keys, descending, n), n)
  {
    if n > 0 {
      SortedPrefixOrdered(keys, descending, n - 1);
      InsertOrdered(keys, descending, SortedPrefix(keys, descending, n - 1), n - 1);
    }
  }

  /** `sort(stable=True).indices` */
  function StableSort(keys: seq<real>, descending: bool): (p: seq<nat>)
    ensures StableSorted(keys, descending, p)
  {
    SortedPrefixOrdered(keys, descending, |keys|);
    SortedPrefix(keys, descending, |keys|)
  }
}
