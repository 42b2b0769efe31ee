/**
  Dividing a token budget among sequences in proportion to weights: floors, at least one each, and a
  cyclic repair loop that hands out or takes back what is missing in the order of fractional parts.
  Weights are real numbers.
 */
module NormalizeLengths {
  import opened CxxArithmetic
  import opened Sequences
  import opened StableSorting

  datatype Outcome = Lengths(lengths: seq<int>) | ValueError | ZeroDivisionError

  // ----- Sums -----------------------------------------------------------------------------------------------

  function SumReal(xs: seq<real>): real {
    if xs == [] then 0.0 else SumReal(xs[..|xs| - 1]) + xs[|xs| - 1]
  }

  /** A sum above the count has an entry above one. */
  lemma {:induction false} SomeAboveOne(xs: seq<int>)
    requires Total(xs) > |xs|
    ensures exists i :: 0 <= i < |xs| && xs[i] > 1
  {
    if xs[|xs| - 1] <= 1 {
      SomeAboveOne(xs[..|xs| - 1]);
      var i :| 0 <= i < |xs| - 1 && xs[..|xs| - 1][i] > 1;
      assert xs[i] > 1;
    }
  }

  // ----- Quotas ---------------------------------------------------------------------------------------------

  /** A weight's share of the budget. */
  function Quota(weight: real, sum: real, total: int): real
    requires sum != 0.0
  {
    weight / sum * total as real
  }

  function Scaled(weights: seq<real>, total: int): (scaled: seq<real>)
    requires weights != [] ==> SumReal(weights) != 0.0
    ensures |scaled| == |weights|
    ensures forall i | 0 <= i < |weights| :: scaled[i] == Quota(weights[i], SumReal(weights), total)
  {
    seq(|weights|, i requires 0 <= i < |weights| => Quota(weights[i], SumReal(weights), total))
  }

  function Floors(scaled: seq<real>): (floors: seq<int>)
    ensures |floors| == |scaled| && forall i | 0 <= i < |scaled| :: floors[i] == scaled[i].Floor
  {
    seq(|scaled|, i requires 0 <= i < |scaled| => scaled[i].Floor)
  }

  function Fractions(scaled: seq<real>): (fractions: seq<real>)
    ensures |fractions| == |scaled|
    ensures forall i | 0 <= i < |scaled| :: fractions[i] == scaled[i] - scaled[i].Floor as real
  {
    seq(|scaled|, i requires 0 <= i < |scaled| => scaled[i] - scaled[i].Floor as real)
  }

  function AtLeastOne(floors: seq<int>): (lengths: seq<int>)
    ensures |lengths| == |floors|
    ensures forall i | 0 <= i < |floors| :: lengths[i] == if floors[i] > 1 then floors[i] else 1
  {
    seq(|floors|, i requires 0 <= i < |floors| => if floors[i] > 1 then floors[i] else 1)
  }

  lemma QuotaAdds(a: real, b: real, sum: real, total: int)
    requires sum != 0.0
    ensures Quota(a + b, sum, total) == Quota(a, sum, total) + Quota(b, sum, total)
    ensures Quota(0.0, sum, total) == 0.0
    ensures Quota(sum, sum, total) == total as real
  {
    var u, v := a / sum, b / sum;
    assert (u + v) * sum == a + b;
    assert (a + b) / sum == u + v;
  }

  /** The quotas share out the whole budget. */
  lemma {:induction false} ScaledTotal(weights: seq<real>, sum: real, total: int, scaled: seq<real>)
    requires sum != 0.0 && |scaled| == |weights|
    requires forall i | 0 <= i < |weights| :: scaled[i] == Quota(weights[i], sum, total)
    ensures SumReal(scaled) == Quota(SumReal(weights), sum, total)
  {
    hide Quota;
    if weights == [] {
      QuotaAdds(0.0, 0.0, sum, total);
    } else {
      var n := |weights| - 1;
      ScaledTotal(weights[..n], sum, total, scaled[..n]);
      QuotaAdds(SumReal(weights[..n]), weights[n], sum, total);
    }
  }

  lemma {:induction false} FractionsTotal(scaled: seq<real>)
    ensures SumReal(scaled) - Total(Floors(scaled)) as real == SumReal(Fractions(scaled))
    ensures 0.0 <= SumReal(Fractions(scaled)) <= |scaled| as real
    ensures scaled != [] ==> SumReal(Fractions(scaled)) < |scaled| as real
  {
    if scaled != [] {
      var n := |scaled| - 1;
      FractionsTotal(scaled[..n]);
      assert Floors(scaled)[..n] == Floors(scaled[..n]);
      assert Fractions(scaled)[..n] == Fractions(scaled[..n]);
    }
  }

  /** What the floors leave over is nonnegative and less than one per sequence. */
  lemma Leftover(weights: seq<real>, total: int)
    requires weights != [] && SumReal(weights) != 0.0
    ensures 0 <= total - Total(Floors(Scaled(weights, total))) < |weights|
  {
    hide Total, SumReal, Scaled, Quota;
    ScaledTotal(weights, SumReal(weights), total, Scaled(weights, total));
    QuotaAdds(0.0, 0.0, SumReal(weights), total);
    LeftoverOf(Scaled(weights, total), total);
  }

  lemma LeftoverOf(scaled: seq<real>, total: int)
    requires scaled != [] && SumReal(scaled) == total as real
    ensures 0 <= total - Total(Floors(scaled)) < |scaled|
  {
    FractionsTotal(scaled);
    hide SumReal, Total;
    var rest := total - Total(Floors(scaled));
    assert rest as real == SumReal(Fractions(scaled));
  }

  // ----- The cyclic walk ------------------------------------------------------------------------------------

  /** The entry whose turn it is. */
  function Turn(order: seq<nat>, cursor: nat): nat
    requires order != []
  {
    order[cursor % |order|]
  }

  predicate Reducible(lengths: seq<int>, order: seq<nat>, cursor: nat)
    requires order != [] && forall k | 0 <= k < |order| :: order[k] < |lengths|
  {
    lengths[Turn(order, cursor)] > 1
  }

  /** The first position from `cursor` on that the walk can take from, or `end`. */
  function NextReducible(lengths: seq<int>, order: seq<nat>, cursor: nat, end: nat): (p: nat)
    requires order != [] && forall k | 0 <= k < |order| :: order[k] < |lengths|
    requires cursor <= end
    ensures cursor <= p <= end
    ensures forall e | cursor <= e < p :: !Reducible(lengths, order, e)
    ensures p < end ==> Reducible(lengths, order, p)
    decreases end - cursor
  {
    if cursor == end || Reducible(lengths, order, cursor) then cursor
    else NextReducible(lengths, order, cursor + 1, end)
  }

  /** How many positions the walk passes before one that it can take from. */
  function Distance(lengths: seq<int>, order: seq<nat>, cursor: nat): (d: nat)
    requires order != [] && forall k | 0 <= k < |order| :: order[k] < |lengths|
  {
    NextReducible(lengths, order, cursor, cursor + |order|) - cursor
  }

  /** Every position comes round within one turn. */
  lemma ComesRound(n: nat, cursor: nat, k: nat) returns (p: nat)
    requires k < n
    ensures cursor <= p < cursor + n && p % n == k
  {
    var q, r := cursor / n, cursor % n;
    var x := q * n;
    assert cursor == x + r && (q + 1) * n == x + n;
    if k >= r {
      p := x + k;
      QuotientUnique(p, q, k, n);
    } else {
      p := x + n + k;
      QuotientUnique(p, q + 1, k, n);
    }
  }

  /** While something can be taken, the walk reaches it within a turn, one position nearer after each skip. */
  lemma WalkApproaches(lengths: seq<int>, order: seq<nat>, cursor: nat)
    requires order != [] && Permutation(order, |lengths|) && (exists i :: 0 <= i < |lengths| && lengths[i] > 1)
    ensures Distance(lengths, order, cursor) < |order|
    ensures !Reducible(lengths, order, cursor) ==>
              Distance(lengths, order, cursor + 1) < Distance(lengths, order, cursor)
  {
    var i :| 0 <= i < |lengths| && lengths[i] > 1;
    assert i in order;
    var k :| 0 <= k < |order| && order[k] == i;
    var p := ComesRound(|order|, cursor, k);
    assert Reducible(lengths, order, p);
    hide Reducible;
    var here := NextReducible(lengths, order, cursor, cursor + |order|);
    var next := NextReducible(lengths, order, cursor + 1, cursor + 1 + |order|);
    if !Reducible(lengths, order, cursor) {
      assert Reducible(lengths, order, here) && here >= cursor + 1;
      assert next <= here;
    }
  }

  // ----- The algorithm --------------------------------------------------------------------------------------

  /** Largest remainders first: what distinguishes a rounded-up entry from a rounded-down one. */
  ghost predicate LargestRemainder(scaled: seq<real>, lengths: seq<int>)
    requires |scaled| == |lengths|
  {
    && (forall i | 0 <= i < |lengths| :: lengths[i] == scaled[i].Floor || lengths[i] == scaled[i].Floor + 1)
    && (forall i, j | 0 <= i < |lengths| && 0 <= j < |lengths|
                      && lengths[i] > scaled[i].Floor && lengths[j] == scaled[j].Floor ::
          Before(Fractions(scaled), true, i, j))
  }

  ghost predicate AllQuotasAtLeastOne(scaled: seq<real>) {
    forall i | 0 <= i < |scaled| :: scaled[i] >= 1.0
  }

  /** The first `given` entries of the order have been rounded up. */
  ghost predicate HandedOut(lengths: seq<int>, start: seq<int>, order: seq<nat>, given: nat)
    requires |lengths| == |start| && Permutation(order, |start|)
  {
    forall k | 0 <= k < |order| :: lengths[order[k]] == start[order[k]] + if k < given then 1 else 0
  }

  lemma HandOutNext(lengths: seq<int>, start: seq<int>, order: seq<nat>, given: nat)
    requires |lengths| == |start| && Permutation(order, |start|) && given < |order| &&
             HandedOut(lengths, start, order, given)
    ensures HandedOut(lengths[Turn(order, given) := lengths[Turn(order, given)] + 1], start, order, given + 1)
  {
    FirstTurn(given, |order|);
  }

  lemma HandedOutIsApportionment(scaled: seq<real>, lengths: seq<int>, order: seq<nat>, given: nat)
    requires |lengths| == |scaled| && AllQuotasAtLeastOne(scaled)
    requires StableSorted(Fractions(scaled), given > 0, order)
    requires HandedOut(lengths, AtLeastOne(Floors(scaled)), order, given)
    ensures LargestRemainder(scaled, lengths)
  {
    forall i | 0 <= i < |lengths|
      ensures exists k :: 0 <= k < |order| && order[k] == i
                          && lengths[i] == scaled[i].Floor + if k < given then 1 else 0
    {
      assert i in order;
      var k :| 0 <= k < |order| && order[k] == i;
      assert scaled[i].Floor >= 1;
    }
  }

  // ----- Whose turn it was ----------------------------------------------------------------------------------

  /** How often the walk has come to position `k` of `n` after `cursor` steps. */
  function Visits(k: nat, cursor: nat, n: nat): (v: nat)
    requires n > 0
  {
    cursor / n + if k < cursor % n then 1 else 0
  }

  /** One step is one more visit of the position at the cursor. */
  lemma VisitsStep(k: nat, cursor: nat, n: nat)
    requires k < n
    ensures Visits(k, 0, n) == 0
    ensures Visits(k, cursor + 1, n) == Visits(k, cursor, n) + if k == cursor % n then 1 else 0
  {
    QuotientUnique(0, 0, 0, n);
    var q, r := cursor / n, cursor % n;
    var x := q * n;
    assert cursor == x + r && (q + 1) * n == x + n;
    if r + 1 < n {
      QuotientUnique(cursor + 1, q, r + 1, n);
    } else {
      QuotientUnique(cursor + 1, q + 1, 0, n);
    }
  }

  /** Earlier positions have been visited as often as later ones, or once more. */
  lemma VisitsOrdered(k: nat, l: nat, cursor: nat, n: nat)
    requires k < l < n
    ensures Visits(l, cursor, n) <= Visits(k, cursor, n) <= Visits(l, cursor, n) + 1
  {
  }

  /** Every visit has handed out one token, or taken one back from what was above one. */
  ghost predicate Walked(lengths: seq<int>, start: seq<int>, order: seq<nat>, cursor: nat, handOut: bool)
    requires |lengths| == |start| && Permutation(order, |start|)
  {
    forall k | 0 <= k < |order| ::
      var visits := Visits(k, cursor, |order|);
      lengths[order[k]] == if handOut then start[order[k]] + visits else Max(1, start[order[k]] - visits)
  }

  lemma WalkStep(lengths: seq<int>, start: seq<int>, order: seq<nat>, cursor: nat, handOut: bool, lengths': seq<int>)
    requires |lengths| == |start| && Permutation(order, |start|) && order != []
    requires forall i | 0 <= i < |start| :: start[i] >= 1
    requires Walked(lengths, start, order, cursor, handOut)
    requires var idx := Turn(order, cursor);
             lengths' == if handOut then lengths[idx := lengths[idx] + 1]
                         else if lengths[idx] > 1 then lengths[idx := lengths[idx] - 1] else lengths
    ensures Walked(lengths', start, order, cursor + 1, handOut)
  {
    hide Visits;
    forall k | 0 <= k < |order|
      ensures var visits := Visits(k, cursor + 1, |order|);
              lengths'[order[k]] == if handOut then start[order[k]] + visits else Max(1, start[order[k]] - visits)
    {
      VisitsStep(k, cursor, |order|);
    }
  }

  lemma WalkBegins(start: seq<int>, order: seq<nat>, handOut: bool)
    requires Permutation(order, |start|) && forall i | 0 <= i < |start| :: start[i] >= 1
    ensures Walked(start, start, order, 0, handOut)
  {
    hide Visits;
    forall k | 0 <= k < |order|
      ensures var visits := Visits(k, 0, |order|);
              start[order[k]] == if handOut then start[order[k]] + visits else Max(1, start[order[k]] - visits)
    {
      VisitsStep(k, 0, |order|);
    }
  }

  /** In a stable order what comes before stands before. */
  lemma PositionsOf(keys: seq<real>, descending: bool, order: seq<nat>, i: nat, j: nat) returns (k: nat, l: nat)
    requires StableSorted(keys, descending, order) && i < |keys| && j < |keys| && Before(keys, descending, i, j)
    ensures k < l < |order| && order[k] == i && order[l] == j
  {
    assert i in order && j in order;
    k :| 0 <= k < |order| && order[k] == i;
    l :| 0 <= l < |order| && order[l] == j;
    assert !Before(keys, descending, j, i) && i != j;
  }

  /**
    Tokens handed out: of two entries the one with the larger fraction (the earlier one of equals) has
    been given as many as the other, or one more.
   */
  ghost predicate GivenInTurn(keys: seq<real>, start: seq<int>, lengths: seq<int>)
    requires |keys| == |start| == |lengths|
  {
    && (forall i | 0 <= i < |start| :: lengths[i] >= start[i])
    && forall i, j | 0 <= i < |start| && 0 <= j < |start| && Before(keys, true, i, j) ::
         lengths[j] - start[j] <= lengths[i] - start[i] <= lengths[j] - start[j] + 1
  }

  /**
    Tokens taken back: of two entries the one with the smaller fraction (the earlier one of equals) has lost
    as many as the other, or one more, unless an entry is down to one.
   */
  ghost predicate TakenInTurn(keys: seq<real>, start: seq<int>, lengths: seq<int>)
    requires |keys| == |start| == |lengths|
  {
    && (forall i | 0 <= i < |start| :: lengths[i] <= start[i])
    && forall i, j | 0 <= i < |start| && 0 <= j < |start| && Before(keys, false, i, j) ::
         && (lengths[i] == 1 || start[j] - lengths[j] <= start[i] - lengths[i])
         && (lengths[j] == 1 || start[i] - lengths[i] <= start[j] - lengths[j] + 1)
  }

  lemma WalkedInTurn(keys: seq<real>, start: seq<int>, lengths: seq<int>, order: seq<nat>, cursor: nat, handOut: bool)
    requires |keys| == |start| == |lengths| && StableSorted(keys, handOut, order)
    requires forall i | 0 <= i < |start| :: start[i] >= 1
    requires Walked(lengths, start, order, cursor, handOut)
    ensures if handOut then GivenInTurn(keys, start, lengths) else TakenInTurn(keys, start, lengths)
  {
    hide Visits;
    forall i | 0 <= i < |start| ensures if handOut then lengths[i] >= start[i] else lengths[i] <= start[i] {
      assert i in order;
    }
    forall i, j | 0 <= i < |start| && 0 <= j < |start| && Before(keys, handOut, i, j)
      ensures handOut ==> lengths[j] - start[j] <= lengths[i] - start[i] <= lengths[j] - start[j] + 1
      ensures !handOut ==>
                && (lengths[i] == 1 || start[j] - lengths[j] <= start[i] - lengths[i])
                && (lengths[j] == 1 || start[i] - lengths[i] <= start[j] - lengths[j] + 1)
    {
      var k, l := PositionsOf(keys, handOut, order, i, j);
      VisitsOrdered(k, l, cursor, |order|);
    }
  }

  /** The repair loop. It fails where the source would take a remainder by zero. */
  method Repair(start: seq<int>, order: seq<nat>, total: int) returns (ok: bool, lengths: seq<int>)
    requires Permutation(order, |start|) && |start| <= total && forall i | 0 <= i < |start| :: start[i] >= 1
    ensures ok <==> order != [] || Total(start) == total
    ensures ok ==> |lengths| == |start| && Total(lengths) == total && forall i | 0 <= i < |start| :: lengths[i] >= 1
    ensures ok && 0 <= total - Total(start) <= |start| ==> HandedOut(lengths, start, order, total - Total(start))
    ensures ok && total >= Total(start) ==> Walked(lengths, start, order, total - Total(start), true)
    ensures ok && total < Total(start) ==> exists cursor: nat :: Walked(lengths, start, order, cursor, false)
  {
    lengths := start;
    var delta := total - Total(lengths);
    ghost var delta0 := delta;
    var cursor := 0;
    assert forall k | 0 <= k < |order| :: order[k] < |lengths|;
    assert HandedOut(lengths, start, order, 0);
    WalkBegins(start, order, delta >= 0);
    hide HandedOut, Walked, Total, NextReducible, Permutation, Distance;
    while delta != 0
      invariant |lengths| == |start| && forall i | 0 <= i < |lengths| :: lengths[i] >= 1
      invariant delta == total - Total(lengths)
      invariant delta0 >= 0 ==> 0 <= delta == delta0 - cursor
      invariant delta0 >= 0 && cursor <= |start| ==> HandedOut(lengths, start, order, cursor)
      invariant delta0 < 0 ==> delta <= 0
      invariant Walked(lengths, start, order, cursor, delta0 >= 0)
      decreases if delta < 0 then -delta else delta,
                if delta < 0 && order != [] then Distance(lengths, order, cursor) else 0
    {
      if order == [] {
        return false, lengths;
      }
      var idx := Turn(order, cursor);
      ghost var was := lengths;
      if delta > 0 {
        if cursor < |order| {
          HandOutNext(lengths, start, order, cursor);
        }
        TotalUpdate(lengths, idx, lengths[idx] + 1);
        lengths := lengths[idx := lengths[idx] + 1];
        delta := delta - 1;
      } else {
        SomeAboveOne(lengths);
        WalkApproaches(lengths, order, cursor);
        if lengths[idx] > 1 {
          TotalUpdate(lengths, idx, lengths[idx] - 1);
          lengths := lengths[idx := lengths[idx] - 1];
          delta := delta + 1;
        }
      }
      WalkStep(was, start, order, cursor, delta0 >= 0, lengths);
      cursor := cursor + 1;
    }
    ok := true;
  }

  /** The floors of the quotas, raised to at least one. */
  function Raised(weights: seq<real>, total: int): (start: seq<int>)
    requires weights != [] ==> SumReal(weights) != 0.0
    ensures |start| == |weights|
    ensures forall i | 0 <= i < |weights| ::
              start[i] == Max(1, Quota(weights[i], SumReal(weights), total).Floor)
  {
    AtLeastOne(Floors(Scaled(weights, total)))
  }

  /** `normalize_lengths` */
  method Normalize(weights: seq<real>, totalTokens: int) returns (r: Outcome)
    ensures r.ValueError? <==> totalTokens < |weights|
    ensures r.ZeroDivisionError? <==>
              totalTokens >= |weights| && (if weights == [] then totalTokens > 0 else SumReal(weights) == 0.0)
    ensures r.Lengths? ==>
              && |r.lengths| == |weights|
              && (forall i | 0 <= i < |weights| :: r.lengths[i] >= 1)
              && Total(r.lengths) == totalTokens
              && (weights != [] ==> SumReal(weights) != 0.0)
              && (AllQuotasAtLeastOne(Scaled(weights, totalTokens)) ==>
                LargestRemainder(Scaled(weights, totalTokens), r.lengths))
    ensures r.Lengths? ==>
              var fractions, start := Fractions(Scaled(weights, totalTokens)), Raised(weights, totalTokens);
              && (totalTokens >= Total(start) ==> GivenInTurn(fractions, start, r.lengths))
              && (totalTokens <= Total(start) ==> TakenInTurn(fractions, start, r.lengths))
  {
    hide Before, Scaled, SumReal, Total, Permutation, HandedOut, StableSorted, LargestRemainder, AllQuotasAtLeastOne;
    if totalTokens < |weights| {
      return ValueError;
    }
    if weights != [] && SumReal(weights) == 0.0 {
      return ZeroDivisionError;
    }
    var scaled := Scaled(weights, totalTokens);
    var lengths := AtLeastOne(Floors(scaled));
    var delta := totalTokens - Total(lengths);
    var order := StableSort(Fractions(scaled), delta > 0);
    QuotasCovered(weights, totalTokens, scaled, lengths);
    SortedIsPermutation(Fractions(scaled), delta > 0, order);
    EmptySum();
    var ok, repaired := Repair(lengths, order, totalTokens);
    if !ok {
      return ZeroDivisionError;
    }
    r := Lengths(repaired);
    InTurn(Fractions(scaled), lengths, repaired, order, totalTokens);
    if AllQuotasAtLeastOne(scaled) {
      HandedOutIsApportionment(scaled, repaired, order, delta);
    }
  }

  lemma InTurn(keys: seq<real>, start: seq<int>, lengths: seq<int>, order: seq<nat>, total: int)
    requires |keys| == |start| == |lengths| && forall i | 0 <= i < |start| :: start[i] >= 1
    requires StableSorted(keys, total > Total(start), order) && Permutation(order, |start|)
    requires total >= Total(start) ==> Walked(lengths, start, order, total - Total(start), true)
    requires total < Total(start) ==> exists cursor: nat :: Walked(lengths, start, order, cursor, false)
    ensures total >= Total(start) ==> GivenInTurn(keys, start, lengths)
    ensures total <= Total(start) ==> TakenInTurn(keys, start, lengths)
  {
    hide Total, StableSorted, Walked, Before;
    if total < Total(start) {
      var cursor: nat :| Walked(lengths, start, order, cursor, false);
      WalkedInTurn(keys, start, lengths, order, cursor, false);
    } else if total > Total(start) {
      WalkedInTurn(keys, start, lengths, order, total - Total(start), true);
    } else {
      NothingMoved(keys, start, lengths, order);
    }
  }

  lemma NothingMoved(keys: seq<real>, start: seq<int>, lengths: seq<int>, order: seq<nat>)
    requires |keys| == |start| == |lengths| && Permutation(order, |start|)
    requires Walked(lengths, start, order, 0, true)
    ensures GivenInTurn(keys, start, lengths) && TakenInTurn(keys, start, lengths)
  {
    forall i | 0 <= i < |start| ensures lengths[i] == start[i] {
      assert i in order;
      var k :| 0 <= k < |order| && order[k] == i;
      VisitsStep(k, 0, |order|);
    }
  }

  /** When no floor had to be raised, there is less to hand out than one turn. */
  lemma QuotasCovered(weights: seq<real>, total: int, scaled: seq<real>, lengths: seq<int>)
    requires (weights != [] ==> SumReal(weights) != 0.0) && scaled == Scaled(weights, total) && |weights| <= total
    requires lengths == AtLeastOne(Floors(scaled))
    ensures AllQuotasAtLeastOne(scaled) && weights != [] ==> 0 <= total - Total(lengths) < |weights|
  {
    if AllQuotasAtLeastOne(scaled) && weights != [] {
      Leftover(weights, total);
      forall i | 0 <= i < |scaled| ensures lengths[i] == Floors(scaled)[i] {
        assert scaled[i].Floor >= 1;
      }
      assert lengths == Floors(scaled);
    }
  }

  lemma EmptySum()
    ensures Total([]) == 0
  {
  }

  lemma SortedIsPermutation(keys: seq<real>, descending: bool, p: seq<nat>)
    requires StableSorted(keys, descending, p)
    ensures Permutation(p, |keys|) && |p| == |keys|
  {
  }

  lemma FirstTurn(cursor: nat, n: nat)
    requires cursor < n
    ensures cursor % n == cursor
  {
  }
}
