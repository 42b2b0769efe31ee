/**
  Removing padding and putting it back: token rows selected by a mask are packed one batch row after
  another, and scattered into zeros again; the gradients of the gathers and scatters are their adjoints.
 */
module BertPadding {
  import opened CxxArithmetic
  import opened Sequences

  datatype Result<T> = Success(value: T) | Failure

  datatype Option<T> = Some(value: T) | None

  // ----- Flat views -----------------------------------------------------------------------------------------

  /** A batch of rows of equal length. */
  ghost predicate Rectangular<T>(rows: seq<seq<T>>, seqlen: nat) {
    forall b | 0 <= b < |rows| :: |rows[b]| == seqlen
  }

  /** `rearrange(x, "(b s) ... -> b s ...", b=batch)` */
  function Unflatten<T>(flat: seq<T>, batch: nat, seqlen: nat): (rows: seq<seq<T>>)
    requires |flat| == batch * seqlen
    ensures |rows| == batch && Rectangular(rows, seqlen)
  {
    seq(batch, b requires 0 <= b < batch => RowOf(flat, b, batch, seqlen))
  }

  function RowOf<T>(flat: seq<T>, b: nat, batch: nat, seqlen: nat): (row: seq<T>)
    requires |flat| == batch * seqlen && b < batch
    ensures |row| == seqlen
  {
    RowInside(b, batch, seqlen);
    flat[b * seqlen..b * seqlen + seqlen]
  }

  lemma RowInside(b: int, batch: int, seqlen: nat)
    requires 0 <= b < batch
    ensures 0 <= b * seqlen && b * seqlen + seqlen <= batch * seqlen
  {
    if seqlen > 0 {
      ProductOrder(0, b, seqlen);
      ProductOrder(b, batch, seqlen);
    }
  }

  lemma {:induction false} ConcatLength<T>(rows: seq<seq<T>>, seqlen: nat)
    requires Rectangular(rows, seqlen)
    ensures |Concat(rows)| == |rows| * seqlen
  {
    if rows != [] {
      ConcatLength(rows[..|rows| - 1], seqlen);
      assert (|rows| - 1) * seqlen + seqlen == |rows| * seqlen;
    }
  }

  lemma {:induction false} ConcatAt<T>(rows: seq<seq<T>>, seqlen: nat, b: nat, s: nat)
    requires Rectangular(rows, seqlen) && b < |rows| && s < seqlen
    ensures b * seqlen + s < |Concat(rows)| == |rows| * seqlen
    ensures Concat(rows)[b * seqlen + s] == rows[b][s]
  {
    var shorter := rows[..|rows| - 1];
    ConcatLength(rows, seqlen);
    ConcatLength(shorter, seqlen);
    if b < |rows| - 1 {
      ConcatAt(shorter, seqlen, b, s);
    }
  }

  // ----- Selection ------------------------------------------------------------------------------------------

  /** `torch.nonzero(flat).flatten()` */
  function Nonzero(flat: seq<nat>): (indices: seq<nat>)
    ensures InRange(indices, |flat|)
  {
    if flat == [] then []
    else Nonzero(flat[..|flat| - 1]) + if flat[|flat| - 1] != 0 then [|flat| - 1] else []
  }

  /** Exactly the nonzero positions, in ascending order. */
  lemma {:induction false} NonzeroSelects(flat: seq<nat>)
    ensures forall k, l | 0 <= k < l < |Nonzero(flat)| :: Nonzero(flat)[k] < Nonzero(flat)[l]
    ensures forall i: nat | i < |flat| :: i in Nonzero(flat) <==> flat[i] != 0
  {
    if flat != [] {
      NonzeroSelects(flat[..|flat| - 1]);
    }
  }

  function Shift(xs: seq<nat>, offset: nat): (ys: seq<nat>)
    ensures |ys| == |xs| && forall k | 0 <= k < |xs| :: ys[k] == xs[k] + offset
  {
    seq(|xs|, k requires 0 <= k < |xs| => xs[k] + offset)
  }

  lemma {:induction false} NonzeroAppend(a: seq<nat>, b: seq<nat>)
    ensures Nonzero(a + b) == Nonzero(a) + Shift(Nonzero(b), |a|)
  {
    if b == [] {
      assert a + b == a;
    } else {
      var b' := b[..|b| - 1];
      NonzeroAppend(a, b');
      assert (a + b)[..|a + b| - 1] == a + b';
      var tail: seq<nat> := if b[|b| - 1] != 0 then [|b| - 1] else [];
      assert Nonzero(b) == Nonzero(b') + tail;
      assert Nonzero(a + b) == Nonzero(a + b') + Shift(tail, |a|);
      ShiftAppend(Nonzero(b'), tail, |a|);
      Regroup(Nonzero(a), Shift(Nonzero(b'), |a|), Shift(tail, |a|));
    }
  }

  lemma ShiftAppend(x: seq<nat>, y: seq<nat>, offset: nat)
    ensures Shift(x + y, offset) == Shift(x, offset) + Shift(y, offset)
  {
  }

  /** `F.pad(torch.cumsum(xs, 0), (1, 0))` */
  function Cumulative(xs: seq<nat>): (cu: seq<nat>)
    ensures |cu| == |xs| + 1
    ensures forall k | 0 <= k <= |xs| :: cu[k] == Total(xs[..k])
  {
    seq(|xs| + 1, k requires 0 <= k <= |xs| => Total(xs[..k]))
  }

  lemma CumulativeStep(xs: seq<nat>, k: nat)
    requires k < |xs|
    ensures Cumulative(xs)[k + 1] == Cumulative(xs)[k] + xs[k]
    ensures Cumulative(xs)[0] == 0 && Cumulative(xs)[|xs|] == Total(xs)
  {
    assert xs[..k + 1][..k] == xs[..k];
    assert xs[..|xs|] == xs;
  }

  function Sums(rows: seq<seq<nat>>): (ns: seq<nat>)
    ensures |ns| == |rows| && forall b | 0 <= b < |rows| :: ns[b] == Total(rows[b])
  {
    seq(|rows|, b requires 0 <= b < |rows| => Total(rows[b]))
  }

  function Counts(rows: seq<seq<nat>>): (ns: seq<nat>)
    ensures |ns| == |rows| && forall b | 0 <= b < |rows| :: ns[b] == |Nonzero(rows[b])|
  {
    seq(|rows|, b requires 0 <= b < |rows| => |Nonzero(rows[b])|)
  }

  /** Selected positions of the first rows come first, row by row. */
  lemma {:induction false} RowsInOrder(rows: seq<seq<nat>>, seqlen: nat, b: nat)
    requires Rectangular(rows, seqlen) && b < |rows|
    ensures var lo, hi := Total(Counts(rows)[..b]), Total(Counts(rows)[..b]) + |Nonzero(rows[b])|;
            && hi <= |Nonzero(Concat(rows))|
            && Nonzero(Concat(rows))[lo..hi] == Shift(Nonzero(rows[b]), b * seqlen)
    decreases |rows|
  {
    hide Nonzero;
    var n := |rows| - 1;
    var shorter := rows[..n];
    NonzeroAppend(Concat(shorter), rows[n]);
    ConcatLength(shorter, seqlen);
    assert Counts(rows)[..n] == Counts(shorter);
    var lo, hi := Total(Counts(rows)[..b]), Total(Counts(rows)[..b]) + |Nonzero(rows[b])|;
    if b < n {
      RowsInOrder(shorter, seqlen, b);
      assert Counts(rows)[..b] == Counts(shorter)[..b];
      SliceOfFirst(Nonzero(Concat(shorter)), Shift(Nonzero(rows[n]), n * seqlen), lo, hi);
    } else {
      CountsTotal(shorter, seqlen);
      SliceOfSecond(Nonzero(Concat(shorter)), Shift(Nonzero(rows[n]), n * seqlen));
    }
  }

  lemma SliceOfFirst<T>(x: seq<T>, y: seq<T>, lo: nat, hi: nat)
    requires lo <= hi <= |x|
    ensures (x + y)[lo..hi] == x[lo..hi]
  {
  }

  lemma SliceOfSecond<T>(x: seq<T>, y: seq<T>)
    ensures (x + y)[|x|..|x| + |y|] == y
  {
  }

  lemma {:induction false} CountsTotal(rows: seq<seq<nat>>, seqlen: nat)
    requires Rectangular(rows, seqlen)
    ensures |Nonzero(Concat(rows))| == Total(Counts(rows))
  {
    if rows != [] {
      var n := |rows| - 1;
      CountsTotal(rows[..n], seqlen);
      NonzeroAppend(Concat(rows[..n]), rows[n]);
      assert Counts(rows)[..n] == Counts(rows[..n]);
    }
  }

  predicate ZeroOne(row: seq<nat>) {
    forall s | 0 <= s < |row| :: row[s] <= 1
  }

  /** A row's sum counts its nonzero entries exactly when none is larger than one. */
  lemma {:induction false} SumCounts(row: seq<nat>)
    ensures |Nonzero(row)| <= Total(row)
    ensures |Nonzero(row)| == Total(row) <==> ZeroOne(row)
  {
    if row != [] {
      SumCounts(row[..|row| - 1]);
      assert ZeroOne(row) <==> ZeroOne(row[..|row| - 1]) && row[|row| - 1] <= 1;
    }
  }

  // ----- Gather and scatter ---------------------------------------------------------------------------------

  ghost predicate InRange(indices: seq<nat>, n: nat) {
    forall k | 0 <= k < |indices| :: indices[k] < n
  }

  ghost predicate Distinct(indices: seq<nat>) {
    forall k, l | 0 <= k < l < |indices| :: indices[k] != indices[l]
  }

  /** `input[indices]` */
  function Gather<T>(input: seq<T>, indices: seq<nat>): (output: seq<T>)
    requires InRange(indices, |input|)
    ensures |output| == |indices| && forall k | 0 <= k < |indices| :: output[k] == input[indices[k]]
  {
    seq(|indices|, k requires 0 <= k < |indices| => input[indices[k]])
  }

  function Filled<T>(n: nat, v: T): (xs: seq<T>)
    ensures |xs| == n && forall i | 0 <= i < n :: xs[i] == v
  {
    seq(n, _ => v)
  }

  /** Overwrites entries one after another. */
  function Put<T>(start: seq<T>, indices: seq<nat>, values: seq<T>): (output: seq<T>)
    requires |indices| == |values| && InRange(indices, |start|)
    ensures |output| == |start|
  {
    if indices == [] then start
    else
      var k := |indices| - 1;
      Put(start, indices[..k], values[..k])[indices[k] := values[k]]
  }

  /** Adds to entries one after another. */
  function AddTo(start: seq<real>, indices: seq<nat>, values: seq<real>): (output: seq<real>)
    requires |indices| == |values| && InRange(indices, |start|)
    ensures |output| == |start|
  {
    if indices == [] then start
    else
      var k := |indices| - 1;
      var output := AddTo(start, indices[..k], values[..k]);
      output[indices[k] := output[indices[k]] + values[k]]
  }

  /** Nothing is overwritten but the given entries. */
  lemma {:induction false} PutElsewhere<T>(start: seq<T>, indices: seq<nat>, values: seq<T>, i: nat)
    requires |indices| == |values| && InRange(indices, |start|) && i < |start| && i !in indices
    ensures Put(start, indices, values)[i] == start[i]
    decreases |indices|
  {
    if indices != [] {
      var k := |indices| - 1;
      PutElsewhere(start, indices[..k], values[..k], i);
    }
  }

  /** With distinct indices every value arrives. */
  lemma {:induction false} PutAt<T>(start: seq<T>, indices: seq<nat>, values: seq<T>, l: nat)
    requires |indices| == |values| && InRange(indices, |start|) && Distinct(indices) && l < |indices|
    ensures Put(start, indices, values)[indices[l]] == values[l]
    decreases |indices|
  {
    var k := |indices| - 1;
    if l < k {
      PutAt(start, indices[..k], values[..k], l);
    }
  }

  /** `IndexPutFirstAxis.forward`, and with `start` zero also `IndexFirstAxis.backward`. */
  method IndexPut<T(0)>(zero: T, values: seq<T>, indices: seq<nat>, n: nat) returns (output: array<T>)
    requires |indices| == |values| && InRange(indices, n)
    ensures fresh(output) && output[..] == Put(Filled(n, zero), indices, values)
  {
    output := new T[n](_ => zero);
    assert output[..] == Filled(n, zero);
    for k := 0 to |indices|
      invariant output[..] == Put(Filled(n, zero), indices[..k], values[..k])
    {
      assert indices[..k + 1][..k] == indices[..k] && values[..k + 1][..k] == values[..k];
      output[indices[k]] := values[k];
    }
    assert indices[..|indices|] == indices && values[..|values|] == values;
  }

  /** `IndexFirstAxisResidual.backward`: adds into the residual's gradient in place. */
  method ScatterAdd(gradInput: array<real>, indices: seq<nat>, gradOutput: seq<real>)
    requires |indices| == |gradOutput| && InRange(indices, gradInput.Length)
    modifies gradInput
    ensures gradInput[..] == AddTo(old(gradInput[..]), indices, gradOutput)
  {
    for k := 0 to |indices|
      invariant gradInput[..] == AddTo(old(gradInput[..]), indices[..k], gradOutput[..k])
    {
      assert indices[..k + 1][..k] == indices[..k] && gradOutput[..k + 1][..k] == gradOutput[..k];
      gradInput[indices[k]] := gradInput[indices[k]] + gradOutput[k];
    }
    assert indices[..|indices|] == indices && gradOutput[..|gradOutput|] == gradOutput;
  }

  // ----- Adjoints ---------------------------------------------------------------------------------------------

  /** The inner product of two columns of features. */
  function Dot(x: seq<real>, y: seq<real>): real
    requires |x| == |y|
  {
    if x == [] then 0.0 else Dot(x[..|x| - 1], y[..|y| - 1]) + x[|x| - 1] * y[|y| - 1]
  }

  lemma {:induction false} DotZero(x: seq<real>, y: seq<real>)
    requires |x| == |y| && forall i | 0 <= i < |y| :: y[i] == 0.0
    ensures Dot(x, y) == 0.0
  {
    if x != [] {
      DotZero(x[..|x| - 1], y[..|y| - 1]);
    }
  }

  /** Changing one entry changes the inner product by its product. */
  lemma {:induction false} DotUpdate(x: seq<real>, y: seq<real>, i: nat, v: real)
    requires |x| == |y| && i < |y|
    ensures Dot(x, y[i := v]) == Dot(x, y) + x[i] * (v - y[i])
  {
    var n := |x| - 1;
    if i < n {
      DotUpdate(x[..n], y[..n], i, v);
      assert y[i := v][..n] == y[..n][i := v];
    } else {
      assert y[i := v][..n] == y[..n];
      assert x[n] * v == x[n] * y[n] + x[n] * (v - y[n]);
    }
  }

  lemma GatherStep<T>(x: seq<T>, indices: seq<nat>)
    requires indices != [] && InRange(indices, |x|)
    ensures var k := |indices| - 1;
            Gather(x, indices)[..k] == Gather(x, indices[..k]) && Gather(x, indices)[k] == x[indices[k]]
  {
  }

  /** Adding into the residual's gradient is the adjoint of gathering beside the residual, duplicates included. */
  lemma {:induction false} ResidualAdjoint(x: seq<real>, indices: seq<nat>, g: seq<real>, residual: seq<real>)
    requires |x| == |residual| && |g| == |indices| && InRange(indices, |x|)
    ensures Dot(x, AddTo(residual, indices, g)) == Dot(Gather(x, indices), g) + Dot(x, residual)
    decreases |indices|
  {
    hide Dot;
    if indices == [] {
      DotZero(Gather(x, indices), g);
    } else {
      var k := |indices| - 1;
      ResidualAdjoint(x, indices[..k], g[..k], residual);
      GatherStep(x, indices);
      DotLast(Gather(x, indices), g);
      var before := AddTo(residual, indices[..k], g[..k]);
      var sum := before[indices[k]] + g[k];
      DotUpdate(x, before, indices[k], sum);
      assert sum - before[indices[k]] == g[k];
    }
  }

  lemma {:induction false} DotLast(x: seq<real>, y: seq<real>)
    requires |x| == |y| > 0
    ensures Dot(x, y) == Dot(x[..|x| - 1], y[..|y| - 1]) + x[|x| - 1] * y[|y| - 1]
  {
  }

  /** With distinct indices, overwriting zeros is the same as adding to them. */
  lemma {:induction false} PutIsAddTo(n: nat, indices: seq<nat>, g: seq<real>)
    requires |g| == |indices| && InRange(indices, n) && Distinct(indices)
    ensures Put(Filled(n, 0.0), indices, g) == AddTo(Filled(n, 0.0), indices, g)
    decreases |indices|
  {
    if indices != [] {
      var k := |indices| - 1;
      PutIsAddTo(n, indices[..k], g[..k]);
      PutElsewhere(Filled(n, 0.0), indices[..k], g[..k], indices[k]);
    }
  }

  /** The overwriting backward of the gather is its adjoint, because the indices are distinct. */
  lemma GatherAdjoint(x: seq<real>, indices: seq<nat>, g: seq<real>)
    requires |g| == |indices| && InRange(indices, |x|) && Distinct(indices)
    ensures Dot(Gather(x, indices), g) == Dot(x, Put(Filled(|x|, 0.0), indices, g))
  {
    PutIsAddTo(|x|, indices, g);
    ResidualAdjoint(x, indices, g, Filled(|x|, 0.0));
    DotZero(x, Filled(|x|, 0.0));
  }

  /** The backward of the put is the gather, its adjoint. */
  lemma PutAdjoint(values: seq<real>, indices: seq<nat>, g: seq<real>)
    requires |values| == |indices| && InRange(indices, |g|) && Distinct(indices)
    ensures Dot(Put(Filled(|g|, 0.0), indices, values), g) == Dot(values, Gather(g, indices))
  {
    GatherAdjoint(g, indices, values);
    DotCommutes(Gather(g, indices), values);
    DotCommutes(g, Put(Filled(|g|, 0.0), indices, values));
  }

  lemma {:induction false} DotCommutes(x: seq<real>, y: seq<real>)
    requires |x| == |y|
    ensures Dot(x, y) == Dot(y, x)
  {
    if x != [] {
      DotCommutes(x[..|x| - 1], y[..|y| - 1]);
    }
  }

  /** An entry of zeros but for a one at `i`. */
  function Unit(n: nat, i: nat): (x: seq<real>)
    requires i < n
    ensures |x| == n && forall j | 0 <= j < n :: x[j] == if j == i then 1.0 else 0.0
  {
    Filled(n, 0.0)[i := 1.0]
  }

  lemma DotUnit(x: seq<real>, i: nat)
    requires i < |x|
    ensures Dot(x, Unit(|x|, i)) == x[i]
  {
    hide Dot;
    DotZero(x, Filled(|x|, 0.0));
    DotUpdate(x, Filled(|x|, 0.0), i, 1.0);
    assert x[i] * (1.0 - 0.0) == x[i];
  }

  /** An entry whose last values are zero is overwritten with zero. */
  lemma {:induction false} PutZeros(start: seq<real>, indices: seq<nat>, g: seq<real>, l: nat)
    requires |indices| == |g| && InRange(indices, |start|) && l < |indices|
    requires forall j | l <= j < |g| :: g[j] == 0.0
    ensures Put(start, indices, g)[indices[l]] == 0.0
    decreases |indices|
  {
    var k := |indices| - 1;
    if l < k {
      PutZeros(start, indices[..k], g[..k], l);
    }
  }

  /** The gradient of the earlier of two equal indices is overwritten. */
  lemma RepeatedIndexLoses(indices: seq<nat>, n: nat, k: nat, l: nat)
    requires InRange(indices, n) && k < l < |indices| && indices[k] == indices[l]
    ensures Dot(Gather(Unit(n, indices[k]), indices), Unit(|indices|, k)) == 1.0
    ensures Dot(Unit(n, indices[k]), Put(Filled(n, 0.0), indices, Unit(|indices|, k))) == 0.0
  {
    var x, g := Unit(n, indices[k]), Unit(|indices|, k);
    DotUnit(Gather(x, indices), k);
    PutZeros(Filled(n, 0.0), indices, g, l);
    DotUnit(Put(Filled(n, 0.0), indices, g), indices[k]);
    DotCommutes(x, Put(Filled(n, 0.0), indices, g));
  }

  /** The overwriting backward is the adjoint of the gather exactly when no index is repeated. */
  lemma OverwriteNeedsDistinct(indices: seq<nat>, n: nat)
    requires InRange(indices, n)
    ensures Distinct(indices) <==>
              forall x: seq<real>, g: seq<real> | |x| == n && |g| == |indices| ::
                Dot(Gather(x, indices), g) == Dot(x, Put(Filled(n, 0.0), indices, g))
  {
    hide Dot, Put, Unit, Filled, Gather;
    if Distinct(indices) {
      forall x: seq<real>, g: seq<real> | |x| == n && |g| == |indices|
        ensures Dot(Gather(x, indices), g) == Dot(x, Put(Filled(n, 0.0), indices, g))
      {
        GatherAdjoint(x, indices, g);
      }
    } else {
      var k: nat, l: nat :| k < l < |indices| && indices[k] == indices[l];
      RepeatedIndexLoses(indices, n, k, l);
    }
  }

  /** A row gathered twice with gradient one each time has gradient two; overwriting leaves one. */
  lemma OverwriteLoses()
    ensures var x, indices, g: seq<real> := [1.0], [0, 0], [1.0, 1.0];
            Dot(Gather(x, indices), g) == 2.0 && Dot(x, Put(Filled(1, 0.0), indices, g)) == 1.0
  {
    var indices: seq<nat>, g: seq<real> := [0, 0], [1.0, 1.0];
    assert Gather([1.0], indices) == [1.0, 1.0];
    assert Put(Filled(1, 0.0), indices, g) == [1.0] by {
      assert indices[..1] == [0] && g[..1] == [1.0];
    }
    assert g[..1] == [1.0] && g[..1][..0] == [];
  }

  // ----- Unpad and pad ----------------------------------------------------------------------------------------

  datatype Unpadded<T> = Unpadded(
    hidden: seq<T>, indices: seq<nat>, cuSeqlens: seq<nat>, maxSeqlen: nat, seqused: seq<nat>)

  function MaxOf(xs: seq<nat>): (m: nat)
    requires xs != []
    ensures m in xs && forall k | 0 <= k < |xs| :: xs[k] <= m
  {
    if |xs| == 1 then xs[0]
    else
      var rest := MaxOf(xs[..|xs| - 1]);
      if xs[|xs| - 1] > rest then xs[|xs| - 1] else rest
  }

  /** `attention_mask + unused_mask` of integers, or the first alone. */
  function AllMasks(attention: seq<seq<nat>>, unused: Option<seq<seq<nat>>>): (all: seq<seq<nat>>)
    requires SameShape(attention, unused)
    ensures |all| == |attention|
    ensures forall b | 0 <= b < |attention| ::
              |all[b]| == |attention[b]| &&
              forall s | 0 <= s < |all[b]| :: all[b][s] == attention[b][s] + UnusedAt(unused, b, s)
  {
    if unused.None? then attention
    else
      seq(|attention|, b requires 0 <= b < |attention| =>
        seq(|attention[b]|, s requires 0 <= s < |attention[b]| => attention[b][s] + unused.value[b][s]))
  }

  ghost predicate SameShape(attention: seq<seq<nat>>, unused: Option<seq<seq<nat>>>) {
    unused.Some? ==>
      |unused.value| == |attention| && forall b | 0 <= b < |attention| :: |unused.value[b]| == |attention[b]|
  }

  function UnusedAt(unused: Option<seq<seq<nat>>>, b: nat, s: nat): nat
    requires unused.Some? ==> b < |unused.value| && s < |unused.value[b]|
  {
    if unused.Some? then unused.value[b][s] else 0
  }

  /** `unpad_input`; an empty batch has no maximum. */
  function Unpad<T>(hidden: seq<seq<T>>, attention: seq<seq<nat>>, unused: Option<seq<seq<nat>>>, seqlen: nat)
    : (r: Result<Unpadded<T>>)
    requires Rectangular(hidden, seqlen) && Rectangular(attention, seqlen) && |hidden| == |attention|
    requires SameShape(attention, unused)
    ensures r.Success? <==> attention != []
    ensures r.Success? ==>
              |r.value.hidden| == |r.value.indices| && InRange(r.value.indices, |attention| * seqlen)
    ensures r.Success? ==> |r.value.cuSeqlens| == |attention| + 1 && |r.value.seqused| == |attention|
  {
    var all := AllMasks(attention, unused);
    ConcatLength(hidden, seqlen);
    ConcatLength(all, seqlen);
    var indices := Nonzero(Concat(all));
    if all == [] then Failure
    else
      Success(Unpadded(
        Gather(Concat(hidden), indices), indices, Cumulative(Sums(all)), MaxOf(Sums(all)), Sums(attention)))
  }

  /** `pad_input` */
  function Pad<T>(zero: T, hidden: seq<T>, indices: seq<nat>, batch: nat, seqlen: nat): (rows: seq<seq<T>>)
    requires |hidden| == |indices| && InRange(indices, batch * seqlen)
    ensures |rows| == batch && Rectangular(rows, seqlen)
  {
    Unflatten(Put(Filled(batch * seqlen, zero), indices, hidden), batch, seqlen)
  }

  /** Gathering the nonzero positions of a mask and putting them back. */
  lemma PadSelected<T>(zero: T, hidden: seq<seq<T>>, all: seq<seq<nat>>, seqlen: nat, b: nat, s: nat)
    requires Rectangular(hidden, seqlen) && Rectangular(all, seqlen) && |hidden| == |all| && b < |all| && s < seqlen
    ensures |Concat(hidden)| == |Concat(all)| == |all| * seqlen && InRange(Nonzero(Concat(all)), |all| * seqlen)
    ensures var indices := Nonzero(Concat(all));
            Pad(zero, Gather(Concat(hidden), indices), indices, |all|, seqlen)[b][s] ==
              if all[b][s] != 0 then hidden[b][s] else zero
  {
    hide Nonzero, Concat, Put;
    ConcatLength(all, seqlen);
    ConcatLength(hidden, seqlen);
    ConcatAt(all, seqlen, b, s);
    ConcatAt(hidden, seqlen, b, s);
    RowInside(b, |all|, seqlen);
    NonzeroSelects(Concat(all));
    PutSelected(Filled(|all| * seqlen, zero), Concat(hidden), Nonzero(Concat(all)), b * seqlen + s);
  }

  /** Padding what was unpadded gives the input with unselected tokens zeroed. */
  lemma PadUnpad<T>(
    zero: T, hidden: seq<seq<T>>, attention: seq<seq<nat>>, unused: Option<seq<seq<nat>>>, seqlen: nat, b: nat, s: nat)
    requires Rectangular(hidden, seqlen) && Rectangular(attention, seqlen) && |hidden| == |attention|
    requires SameShape(attention, unused) && b < |attention| && s < seqlen
    ensures Unpad(hidden, attention, unused, seqlen).Success?
    ensures var u := Unpad(hidden, attention, unused, seqlen).value;
            Pad(zero, u.hidden, u.indices, |attention|, seqlen)[b][s] ==
              if attention[b][s] != 0 || UnusedAt(unused, b, s) != 0 then hidden[b][s] else zero
  {
    hide Nonzero, Concat, Pad, Gather, Sums, Cumulative, MaxOf;
    PadSelected(zero, hidden, AllMasks(attention, unused), seqlen, b, s);
  }

  /** Putting back what was gathered restores the gathered entries and leaves the others. */
  lemma PutSelected<T>(start: seq<T>, x: seq<T>, indices: seq<nat>, i: nat)
    requires |start| == |x| && InRange(indices, |x|) && Distinct(indices) && i < |x|
    ensures Put(start, indices, Gather(x, indices))[i] == if i in indices then x[i] else start[i]
  {
    if i in indices {
      var k :| 0 <= k < |indices| && indices[k] == i;
      PutAt(start, indices, Gather(x, indices), k);
    } else {
      PutElsewhere(start, indices, Gather(x, indices), i);
    }
  }

  lemma UnflattenInverts<T>(flat: seq<T>, batch: nat, seqlen: nat)
    requires |flat| == batch * seqlen
    ensures Concat(Unflatten(flat, batch, seqlen)) == flat
  {
    var rows := Unflatten(flat, batch, seqlen);
    ConcatLength(rows, seqlen);
    forall j: nat | j < |flat| ensures Concat(rows)[j] == flat[j] {
      UnflattenAt(flat, batch, seqlen, j);
    }
  }

  lemma PositiveFactor(x: nat, y: nat)
    ensures x * y > 0 ==> y > 0
  {
    if y == 0 {
      assert x * y == 0;
    }
  }

  lemma UnflattenAt<T>(flat: seq<T>, batch: nat, seqlen: nat, j: nat)
    requires |flat| == batch * seqlen && j < |flat|
    ensures |Concat(Unflatten(flat, batch, seqlen))| == |flat|
    ensures Concat(Unflatten(flat, batch, seqlen))[j] == flat[j]
  {
    hide Concat;
    var rows := Unflatten(flat, batch, seqlen);
    ConcatLength(rows, seqlen);
    PositiveFactor(batch, seqlen);
    var b, s := j / seqlen, j % seqlen;
    var lo := b * seqlen;
    assert j == lo + s;
    ProductOrder(batch, b, seqlen);
    ConcatAt(rows, seqlen, b, s);
    RowInside(b, batch, seqlen);
    assert rows[b] == flat[lo..lo + seqlen];
  }

  /** Unpadding what was padded gives back the tokens. */
  lemma UnpadPad<T>(zero: T, tokens: seq<T>, attention: seq<seq<nat>>, unused: Option<seq<seq<nat>>>, seqlen: nat)
    requires Rectangular(attention, seqlen) && SameShape(attention, unused) && attention != []
    requires |tokens| == |Nonzero(Concat(AllMasks(attention, unused)))|
    ensures InRange(Nonzero(Concat(AllMasks(attention, unused))), |attention| * seqlen)
    ensures var padded := Pad(zero, tokens, Nonzero(Concat(AllMasks(attention, unused))), |attention|, seqlen);
            && Unpad(padded, attention, unused, seqlen).Success?
            && Unpad(padded, attention, unused, seqlen).value.hidden == tokens
  {
    hide Nonzero, Concat, Put, Unflatten;
    var all := AllMasks(attention, unused);
    ConcatLength(all, seqlen);
    NonzeroSelects(Concat(all));
    var indices := Nonzero(Concat(all));
    var flat := Put(Filled(|all| * seqlen, zero), indices, tokens);
    UnflattenInverts(flat, |all|, seqlen);
    forall k | 0 <= k < |indices| ensures flat[indices[k]] == tokens[k] {
      PutAt(Filled(|all| * seqlen, zero), indices, tokens, k);
    }
    assert Gather(flat, indices) == tokens;
  }

  /** Segment `b` of the packed tokens is exactly row `b`'s selection, in order. */
  ghost predicate SegmentIsRow(indices: seq<nat>, cu: seq<nat>, all: seq<seq<nat>>, seqlen: nat, b: nat)
    requires b < |all| && |cu| == |all| + 1
  {
    && cu[b] <= cu[b + 1] <= |indices|
    && indices[cu[b]..cu[b + 1]] == Shift(Nonzero(all[b]), b * seqlen)
  }

  /** For masks of zeros and ones, every segment of `cu_seqlens` is its batch row. */
  lemma SegmentsAreRows(all: seq<seq<nat>>, seqlen: nat, b: nat)
    requires Rectangular(all, seqlen) && b < |all| && forall x | 0 <= x < |all| :: ZeroOne(all[x])
    ensures SegmentIsRow(Nonzero(Concat(all)), Cumulative(Sums(all)), all, seqlen, b)
    ensures Cumulative(Sums(all))[|all|] == |Nonzero(Concat(all))|
  {
    forall x | 0 <= x < |all| ensures Sums(all)[x] == Counts(all)[x] {
      SumCounts(all[x]);
    }
    assert Sums(all) == Counts(all);
    RowsInOrder(all, seqlen, b);
    CountsTotal(all, seqlen);
    CumulativeStep(Counts(all), b);
  }

  /** All segments of `cu_seqlens` are their batch rows. */
  ghost predicate SegmentsMatch(all: seq<seq<nat>>, seqlen: nat) {
    forall b | 0 <= b < |all| :: SegmentIsRow(Nonzero(Concat(all)), Cumulative(Sums(all)), all, seqlen, b)
  }

  ghost predicate ZeroOneMasks(all: seq<seq<nat>>) {
    forall b | 0 <= b < |all| :: ZeroOne(all[b])
  }

  /** All segments are rows exactly when no entry of the summed mask exceeds one. */
  lemma SummedSegmentsMatchIff(all: seq<seq<nat>>, seqlen: nat)
    requires Rectangular(all, seqlen)
    ensures SegmentsMatch(all, seqlen) <==> ZeroOneMasks(all)
  {
    hide Nonzero, Concat, Rectangular, SegmentIsRow, ZeroOne;
    if ZeroOneMasks(all) {
      forall b | 0 <= b < |all| ensures SegmentIsRow(Nonzero(Concat(all)), Cumulative(Sums(all)), all, seqlen, b) {
        SegmentsAreRows(all, seqlen, b);
      }
    }
    if SegmentsMatch(all, seqlen) {
      forall b | 0 <= b < |all| ensures ZeroOne(all[b]) {
        RowSegmentCounts(Nonzero(Concat(all)), all, seqlen, b);
      }
    }
  }

  lemma RowSegmentCounts(indices: seq<nat>, all: seq<seq<nat>>, seqlen: nat, b: nat)
    requires b < |all| && SegmentIsRow(indices, Cumulative(Sums(all)), all, seqlen, b)
    ensures ZeroOne(all[b])
  {
    SumCounts(all[b]);
    CumulativeStep(Sums(all), b);
    assert |indices[Cumulative(Sums(all))[b]..Cumulative(Sums(all))[b + 1]]| == |Nonzero(all[b])|;
  }

  /** No position is selected by both masks. */
  ghost predicate Disjoint(attention: seq<seq<nat>>, unused: Option<seq<seq<nat>>>)
    requires SameShape(attention, unused)
  {
    forall b, s | 0 <= b < |attention| && 0 <= s < |attention[b]| :: attention[b][s] == 0 || UnusedAt(unused, b, s) == 0
  }

  /**
    For masks of zeros and ones `cu_seqlens` delimits the batch rows among the indices exactly when no
    token is selected by both masks: as integers the row sums count such a token twice.
   */
  lemma SegmentsMatchIff<T>(hidden: seq<seq<T>>, attention: seq<seq<nat>>, unused: Option<seq<seq<nat>>>, seqlen: nat)
    requires Rectangular(hidden, seqlen) && Rectangular(attention, seqlen) && |hidden| == |attention| > 0
    requires SameShape(attention, unused) && ZeroOneMasks(attention) && (unused.Some? ==> ZeroOneMasks(unused.value))
    ensures Unpad(hidden, attention, unused, seqlen).Success?
    ensures var u, all := Unpad(hidden, attention, unused, seqlen).value, AllMasks(attention, unused);
            (forall b | 0 <= b < |all| :: SegmentIsRow(u.indices, u.cuSeqlens, all, seqlen, b))
            <==> Disjoint(attention, unused)
  {
    hide Nonzero, Concat, SegmentIsRow, Sums, Cumulative;
    SummedSegmentsMatchIff(AllMasks(attention, unused), seqlen);
    ZeroOneSum(attention, unused);
  }

  lemma ZeroOneSum(attention: seq<seq<nat>>, unused: Option<seq<seq<nat>>>)
    requires SameShape(attention, unused) && ZeroOneMasks(attention) && (unused.Some? ==> ZeroOneMasks(unused.value))
    ensures ZeroOneMasks(AllMasks(attention, unused)) <==> Disjoint(attention, unused)
  {
    var all := AllMasks(attention, unused);
    if Disjoint(attention, unused) {
      forall b | 0 <= b < |all| ensures ZeroOne(all[b]) {
        forall s | 0 <= s < |all[b]| ensures all[b][s] <= 1 {
          assert ZeroOne(attention[b]) && (unused.Some? ==> ZeroOne(unused.value[b]));
        }
      }
    }
    if ZeroOneMasks(all) {
      forall b, s | 0 <= b < |attention| && 0 <= s < |attention[b]|
        ensures attention[b][s] == 0 || UnusedAt(unused, b, s) == 0
      {
        assert ZeroOne(all[b]) && all[b][s] <= 1;
      }
    }
  }

  function UnusedRow(unused: Option<seq<seq<nat>>>, b: nat, seqlen: nat): (row: seq<nat>)
    requires unused.Some? ==> b < |unused.value|
  {
    if unused.Some? then unused.value[b] else Filled(seqlen, 0)
  }

  lemma {:induction false} TotalOfSums(x: seq<nat>, y: seq<nat>, z: seq<nat>)
    requires |x| == |y| == |z| && forall s | 0 <= s < |x| :: z[s] == x[s] + y[s]
    ensures Total(z) == Total(x) + Total(y)
  {
    if z != [] {
      var n := |z| - 1;
      TotalOfSums(x[..n], y[..n], z[..n]);
    }
  }

  /**
    `seqused` counts the attention mask alone: a segment is longer by the row's unused tokens, and as long
    exactly when there are none.
   */
  lemma SegmentsBeyondUsed<T>(
    hidden: seq<seq<T>>, attention: seq<seq<nat>>, unused: Option<seq<seq<nat>>>, seqlen: nat, b: nat)
    requires Rectangular(hidden, seqlen) && Rectangular(attention, seqlen) && |hidden| == |attention|
    requires SameShape(attention, unused) && b < |attention|
    ensures var u := Unpad(hidden, attention, unused, seqlen).value;
            && u.cuSeqlens[b + 1] == u.cuSeqlens[b] + u.seqused[b] + Total(UnusedRow(unused, b, seqlen))
            && (u.cuSeqlens[b + 1] == u.cuSeqlens[b] + u.seqused[b] <==>
                  forall s | 0 <= s < seqlen :: UnusedAt(unused, b, s) == 0)
  {
    hide Nonzero, Concat, Total, Gather, MaxOf;
    var row, all := UnusedRow(unused, b, seqlen), AllMasks(attention, unused);
    CumulativeStep(Sums(all), b);
    TotalOfSums(attention[b], row, all[b]);
    TotalZeroIff(row);
  }

  /** `max_seqlen` is the length of the longest segment. */
  lemma LongestSegment<T>(
    hidden: seq<seq<T>>, attention: seq<seq<nat>>, unused: Option<seq<seq<nat>>>, seqlen: nat)
    requires Rectangular(hidden, seqlen) && Rectangular(attention, seqlen) && |hidden| == |attention| > 0
    requires SameShape(attention, unused)
    ensures var u := Unpad(hidden, attention, unused, seqlen).value;
            && (forall b | 0 <= b < |attention| :: u.cuSeqlens[b + 1] <= u.cuSeqlens[b] + u.maxSeqlen)
            && exists b :: 0 <= b < |attention| && u.cuSeqlens[b + 1] == u.cuSeqlens[b] + u.maxSeqlen
  {
    hide Nonzero, Concat, Gather, AllMasks;
    LargestStep(Sums(AllMasks(attention, unused)));
  }

  lemma {:induction false} LargestStep(ns: seq<nat>)
    requires ns != []
    ensures forall b | 0 <= b < |ns| :: Cumulative(ns)[b + 1] <= Cumulative(ns)[b] + MaxOf(ns)
    ensures exists b :: 0 <= b < |ns| && Cumulative(ns)[b + 1] == Cumulative(ns)[b] + MaxOf(ns)
  {
    hide Cumulative;
    forall b | 0 <= b < |ns| ensures Cumulative(ns)[b + 1] == Cumulative(ns)[b] + ns[b] {
      CumulativeStep(ns, b);
    }
    var b :| 0 <= b < |ns| && ns[b] == MaxOf(ns);
    assert Cumulative(ns)[b + 1] == Cumulative(ns)[b] + MaxOf(ns);
  }

  lemma {:induction false} TotalZeroIff(xs: seq<nat>)
    ensures Total(xs) == 0 <==> forall i | 0 <= i < |xs| :: xs[i] == 0
  {
    if xs != [] {
      TotalZeroIff(xs[..|xs| - 1]);
    }
  }

  /** One token selected by both masks: one index, and an offset of two. */
  lemma BothMasksMiscount<T>(h: T)
    ensures var u := Unpad([[h]], [[1]], Some([[1]]), 1).value;
            u.hidden == [h] && u.indices == [0] && u.cuSeqlens == [0, 2]
  {
    hide Nonzero, Concat, Total, Cumulative, MaxOf;
    var all := AllMasks([[1]], Some([[1]]));
    assert all[0] == [2] && all == [[2]];
    SinglePart<nat>([2]);
    SinglePart([h]);
    SingleEntry(2);
    assert Sums(all) == [2];
    assert Gather([h], [0]) == [h];
  }

  lemma SinglePart<T>(part: seq<T>)
    ensures Concat([part]) == part
  {
    assert [part][..0] == [];
  }

  lemma SingleEntry(n: nat)
    ensures Total([n]) == n && Cumulative([n]) == [0, n]
    ensures Nonzero([n]) == if n != 0 then [0] else []
  {
    assert [n][..0] == [] && [n][..1] == [n];
  }

  // ----- Concatenated samples -----------------------------------------------------------------------------------

  datatype Packed<T> = Packed(hidden: seq<T>, indices: seq<nat>, cuSeqlens: seq<nat>, maxSeqlen: nat)

  /** Ones up to the row's total length. */
  function PrefixMask(lengths: seq<seq<nat>>, seqlen: nat): (mask: seq<seq<nat>>)
    ensures |mask| == |lengths| && Rectangular(mask, seqlen)
    ensures forall b, s | 0 <= b < |lengths| && 0 <= s < seqlen :: mask[b][s] == if s < Total(lengths[b]) then 1 else 0
  {
    seq(|lengths|, b requires 0 <= b < |lengths| =>
      seq(seqlen, s requires 0 <= s < seqlen => if s < Total(lengths[b]) then 1 else 0))
  }

  /** The nonzero sample lengths in reading order. */
  function SampleLengths(lengths: seq<seq<nat>>): (ns: seq<nat>)
  {
    Gather(Concat(lengths), Nonzero(Concat(lengths)))
  }

  /** `unpad_input_for_concatenated_sequences`; without any sample there is no maximum. */
  function UnpadConcatenated<T>(hidden: seq<seq<T>>, lengths: seq<seq<nat>>, seqlen: nat): (r: Result<Packed<T>>)
    requires Rectangular(hidden, seqlen) && Rectangular(lengths, seqlen) && |hidden| == |lengths|
  {
    var mask := PrefixMask(lengths, seqlen);
    ConcatLength(hidden, seqlen);
    ConcatLength(mask, seqlen);
    var indices := Nonzero(Concat(mask));
    var samples := SampleLengths(lengths);
    if samples == [] then Failure
    else Success(Packed(Gather(Concat(hidden), indices), indices, Cumulative(samples), MaxOf(samples)))
  }

  function Iota(n: nat): (xs: seq<nat>)
    ensures |xs| == n && forall i | 0 <= i < n :: xs[i] == i
  {
    seq(n, i requires 0 <= i < n => i)
  }

  function PrefixRow(n: nat, seqlen: nat): (row: seq<nat>)
    ensures |row| == seqlen && forall s | 0 <= s < seqlen :: row[s] == if s < n then 1 else 0
  {
    seq(seqlen, s requires 0 <= s < seqlen => if s < n then 1 else 0)
  }

  /** A prefix mask selects the positions before its length, as far as the row goes. */
  lemma {:induction false} PrefixNonzero(n: nat, seqlen: nat)
    ensures Nonzero(PrefixRow(n, seqlen)) == Iota(Min(n, seqlen))
  {
    if seqlen > 0 {
      PrefixNonzero(n, seqlen - 1);
      assert PrefixRow(n, seqlen)[..seqlen - 1] == PrefixRow(n, seqlen - 1);
    }
  }

  lemma PrefixCounts(lengths: seq<seq<nat>>, seqlen: nat, b: nat)
    requires b < |lengths|
    ensures Nonzero(PrefixMask(lengths, seqlen)[b]) == Iota(Min(Total(lengths[b]), seqlen))
  {
    PrefixNonzero(Total(lengths[b]), seqlen);
    assert PrefixMask(lengths, seqlen)[b] == PrefixRow(Total(lengths[b]), seqlen);
  }

  /** Every row's samples fit into it. */
  predicate Fits(lengths: seq<seq<nat>>, seqlen: nat) {
    forall b | 0 <= b < |lengths| :: Total(lengths[b]) <= seqlen
  }

  /** Zeros between the samples contribute nothing to the offsets. */
  lemma {:induction false} SampleOffset(flat: seq<nat>, j: nat)
    requires j < |Nonzero(flat)|
    ensures Total(Gather(flat, Nonzero(flat))[..j]) == Total(flat[..Nonzero(flat)[j]])
    decreases |flat|
  {
    var n := |flat| - 1;
    var at := Nonzero(flat[..n]);
    SamplesTotal(flat[..n]);
    if j < |at| {
      SampleOffset(flat[..n], j);
      assert Gather(flat, Nonzero(flat))[..j] == Gather(flat[..n], at)[..j];
      assert flat[..n][..at[j]] == flat[..at[j]];
    } else {
      assert Gather(flat, Nonzero(flat))[..j] == Gather(flat[..n], at);
    }
  }

  lemma {:induction false} SamplesTotal(flat: seq<nat>)
    ensures Total(Gather(flat, Nonzero(flat))) == Total(flat)
  {
    if flat != [] {
      var n := |flat| - 1;
      var at, shorter := Nonzero(flat), Gather(flat[..n], Nonzero(flat[..n]));
      SamplesTotal(flat[..n]);
      if flat[n] != 0 {
        assert Gather(flat, at)[..|at| - 1] == shorter;
      } else {
        assert Gather(flat, at) == shorter;
      }
    }
  }

  lemma {:induction false} ConcatTotal(rows: seq<seq<nat>>)
    ensures Total(Concat(rows)) == Total(Sums(rows))
  {
    if rows != [] {
      var n := |rows| - 1;
      ConcatTotal(rows[..n]);
      TotalAppend(Concat(rows[..n]), rows[n]);
      assert Sums(rows)[..n] == Sums(rows[..n]);
    }
  }

  /** The tokens before a position of the flat lengths: whole rows, then the row's earlier samples. */
  lemma {:induction false} TokensBefore(rows: seq<seq<nat>>, seqlen: nat, b: nat, c: nat)
    requires Rectangular(rows, seqlen) && b < |rows| && c < seqlen
    ensures b * seqlen + c < |Concat(rows)|
    ensures Total(Concat(rows)[..b * seqlen + c]) == Total(Sums(rows)[..b]) + Total(rows[b][..c])
    decreases |rows|
  {
    hide Total;
    ConcatAt(rows, seqlen, b, c);
    var n := |rows| - 1;
    var shorter := rows[..n];
    ConcatLength(shorter, seqlen);
    var i := b * seqlen + c;
    assert Sums(rows)[..b] == Sums(shorter)[..b];
    if b < n {
      TokensBefore(shorter, seqlen, b, c);
      assert Concat(rows)[..i] == Concat(shorter)[..i];
    } else {
      assert Concat(rows)[..i] == Concat(shorter) + rows[n][..c];
      TotalAppend(Concat(shorter), rows[n][..c]);
      ConcatTotal(shorter);
      assert Sums(shorter)[..b] == Sums(shorter);
    }
  }

  /** The offset of a sample counts the rows before it and the samples before it in its row. */
  lemma CuOfSample<T>(
    hidden: seq<seq<T>>, lengths: seq<seq<nat>>, seqlen: nat, b: nat, c: nat, j: nat)
    requires Rectangular(hidden, seqlen) && Rectangular(lengths, seqlen) && |hidden| == |lengths|
    requires b < |lengths| && c < seqlen
    requires j < |Nonzero(Concat(lengths))| && Nonzero(Concat(lengths))[j] == b * seqlen + c
    ensures UnpadConcatenated(hidden, lengths, seqlen).Success?
    ensures var cu := UnpadConcatenated(hidden, lengths, seqlen).value.cuSeqlens;
            && |cu| == |Nonzero(Concat(lengths))| + 1
            && cu[j] == Total(Sums(lengths)[..b]) + Total(lengths[b][..c])
            && cu[j + 1] == cu[j] + lengths[b][c]
  {
    hide Nonzero, Concat, Total;
    SampleOffset(Concat(lengths), j);
    TokensBefore(lengths, seqlen, b, c);
    ConcatAt(lengths, seqlen, b, c);
    CumulativeStep(SampleLengths(lengths), j);
  }

  lemma {:induction false} TotalPrefix(row: seq<nat>, c: nat)
    requires c < |row|
    ensures Total(row[..c]) + row[c] <= Total(row)
  {
    if c < |row| - 1 {
      TotalPrefix(row[..|row| - 1], c);
      assert row[..|row| - 1][..c] == row[..c];
    }
  }

  lemma FitCounts(lengths: seq<seq<nat>>, seqlen: nat)
    requires Fits(lengths, seqlen)
    ensures Counts(PrefixMask(lengths, seqlen)) == Sums(lengths)
  {
    forall x | 0 <= x < |lengths| ensures Counts(PrefixMask(lengths, seqlen))[x] == Sums(lengths)[x] {
      PrefixCounts(lengths, seqlen, x);
    }
  }

  lemma RunAt(indices: seq<nat>, lo: nat, n: nat, offset: nat, x: nat)
    requires lo + n <= |indices| && indices[lo..lo + n] == Shift(Iota(n), offset) && x < n
    ensures indices[lo + x] == offset + x
  {
    assert indices[lo + x] == indices[lo..lo + n][x];
  }

  /**
    Packing is faithful when the samples fit: the segment of the sample in row `b`, column `c` of the
    lengths is the contiguous run of `lengths[b][c]` tokens of batch row `b` that starts where the row's
    earlier samples end.
   */
  lemma SegmentIsRun<T>(
    hidden: seq<seq<T>>, lengths: seq<seq<nat>>, seqlen: nat, b: nat, c: nat, j: nat, d: nat)
    requires Rectangular(hidden, seqlen) && Rectangular(lengths, seqlen) && |hidden| == |lengths|
    requires Fits(lengths, seqlen) && b < |lengths| && c < seqlen
    requires j < |Nonzero(Concat(lengths))| && Nonzero(Concat(lengths))[j] == b * seqlen + c
    requires d < lengths[b][c]
    ensures UnpadConcatenated(hidden, lengths, seqlen).Success?
    ensures var packed, at := UnpadConcatenated(hidden, lengths, seqlen).value, Total(lengths[b][..c]) + d;
            && j + 1 < |packed.cuSeqlens|
            && packed.cuSeqlens[j + 1] == packed.cuSeqlens[j] + lengths[b][c]
            && packed.cuSeqlens[j] + d < |packed.indices| == |packed.hidden|
            && at < seqlen
            && packed.indices[packed.cuSeqlens[j] + d] == b * seqlen + at
            && packed.hidden[packed.cuSeqlens[j] + d] == hidden[b][at]
  {
    hide Nonzero, Concat, Total, Gather, Counts, Iota, Shift, MaxOf, SampleLengths;
    CuOfSample(hidden, lengths, seqlen, b, c, j);
    TotalPrefix(lengths[b], c);
    var mask, x := PrefixMask(lengths, seqlen), Total(lengths[b][..c]) + d;
    FitCounts(lengths, seqlen);
    RowsInOrder(mask, seqlen, b);
    PrefixCounts(lengths, seqlen, b);
    RunAt(Nonzero(Concat(mask)), Total(Sums(lengths)[..b]), Total(lengths[b]), b * seqlen, x);
    ConcatAt(hidden, seqlen, b, x);
  }

  /** The samples account for all selected tokens exactly when every row fits. */
  lemma SamplesAreSelected(lengths: seq<seq<nat>>, seqlen: nat)
    requires Rectangular(lengths, seqlen)
    ensures Cumulative(SampleLengths(lengths))[|SampleLengths(lengths)|]
            == |Nonzero(Concat(PrefixMask(lengths, seqlen)))|
       <==> Fits(lengths, seqlen)
  {
    hide Nonzero, Concat, Total;
    var mask := PrefixMask(lengths, seqlen);
    assert SampleLengths(lengths)[..|SampleLengths(lengths)|] == SampleLengths(lengths);
    SamplesTotal(Concat(lengths));
    ConcatTotal(lengths);
    CountsTotal(mask, seqlen);
    forall x | 0 <= x < |lengths|
      ensures Counts(mask)[x] <= Sums(lengths)[x]
      ensures Counts(mask)[x] == Sums(lengths)[x] <==> Total(lengths[x]) <= seqlen
    {
      PrefixCounts(lengths, seqlen, x);
    }
    TotalsAgreeIff(Counts(mask), Sums(lengths));
  }

  lemma {:induction false} TotalsAgreeIff(x: seq<nat>, y: seq<nat>)
    requires |x| == |y| && forall i | 0 <= i < |x| :: x[i] <= y[i]
    ensures Total(x) <= Total(y)
    ensures Total(x) == Total(y) <==> x == y
  {
    if x != [] {
      var n := |x| - 1;
      TotalsAgreeIff(x[..n], y[..n]);
      assert x == x[..n] + [x[n]] && y == y[..n] + [y[n]];
    }
  }

  /** `cu_seqlens` ends at the end of the indices exactly when every row's samples fit. */
  lemma OffsetsEndIff<T>(hidden: seq<seq<T>>, lengths: seq<seq<nat>>, seqlen: nat)
    requires Rectangular(hidden, seqlen) && Rectangular(lengths, seqlen) && |hidden| == |lengths|
    ensures var r := UnpadConcatenated(hidden, lengths, seqlen);
            && (r.Success? <==> exists b, c :: 0 <= b < |lengths| && 0 <= c < seqlen && lengths[b][c] != 0)
            && (r.Success? ==>
                  && r.value.cuSeqlens != []
                  && (r.value.cuSeqlens[|r.value.cuSeqlens| - 1] == |r.value.indices| <==> Fits(lengths, seqlen)))
  {
    hide Nonzero, Concat, Total, Fits;
    SamplesAreSelected(lengths, seqlen);
    SampleExistsIff(lengths, seqlen);
  }

  /** And `max_seqlen` is the length of the longest sample. */
  lemma LongestSample<T>(hidden: seq<seq<T>>, lengths: seq<seq<nat>>, seqlen: nat)
    requires Rectangular(hidden, seqlen) && Rectangular(lengths, seqlen) && |hidden| == |lengths|
    requires UnpadConcatenated(hidden, lengths, seqlen).Success?
    ensures var packed := UnpadConcatenated(hidden, lengths, seqlen).value;
            && (forall j | 0 <= j < |packed.cuSeqlens| - 1 ::
                  packed.cuSeqlens[j + 1] <= packed.cuSeqlens[j] + packed.maxSeqlen)
            && exists j :: 0 <= j < |packed.cuSeqlens| - 1
                           && packed.cuSeqlens[j + 1] == packed.cuSeqlens[j] + packed.maxSeqlen
  {
    hide Nonzero, Concat, Gather, SampleLengths;
    LargestStep(SampleLengths(lengths));
  }

  lemma SampleExistsIff(lengths: seq<seq<nat>>, seqlen: nat)
    requires Rectangular(lengths, seqlen)
    ensures SampleLengths(lengths) != [] <==> exists b, c :: 0 <= b < |lengths| && 0 <= c < seqlen && lengths[b][c] != 0
  {
    hide Nonzero, Concat;
    var flat := Concat(lengths);
    ConcatLength(lengths, seqlen);
    NonzeroSelects(flat);
    if SampleLengths(lengths) != [] {
      assert Nonzero(flat)[0] in Nonzero(flat);
      var b, c := RowAndColumn(lengths, seqlen, Nonzero(flat)[0]);
      assert lengths[b][c] != 0;
    }
    if b, c :| 0 <= b < |lengths| && 0 <= c < seqlen && lengths[b][c] != 0 {
      ConcatAt(lengths, seqlen, b, c);
      assert b * seqlen + c in Nonzero(flat);
    }
  }

  /** Every flat position lies in a row. */
  lemma RowAndColumn<T>(rows: seq<seq<T>>, seqlen: nat, j: nat) returns (b: nat, c: nat)
    requires Rectangular(rows, seqlen) && j < |Concat(rows)|
    ensures b < |rows| && c < seqlen && Concat(rows)[j] == rows[b][c]
  {
    hide Concat;
    ConcatLength(rows, seqlen);
    PositiveFactor(|rows|, seqlen);
    b, c := j / seqlen, j % seqlen;
    assert j == b * seqlen + c;
    ProductOrder(|rows|, b, seqlen);
    ConcatAt(rows, seqlen, b, c);
  }

  /** One sample of two tokens in a row of one: one index, and an offset of two. */
  lemma OverfullRow<T>(h: T)
    ensures var packed := UnpadConcatenated([[h]], [[2]], 1).value;
            packed.hidden == [h] && packed.indices == [0] && packed.cuSeqlens == [0, 2]
  {
    hide Nonzero, Concat, Total, Cumulative, MaxOf;
    SinglePart<nat>([1]);
    SinglePart<nat>([2]);
    SinglePart([h]);
    SingleEntry(1);
    SingleEntry(2);
    var mask := PrefixMask([[2]], 1);
    assert mask[0] == [1] && mask == [[1]];
    assert Gather<nat>([2], [0]) == [2] && Gather([h], [0]) == [h];
  }
}
