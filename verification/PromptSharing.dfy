/**
  A decoder layer over three layouts of the same batch: one packed copy of the prompt per response
  (FA2), one shared prompt (DualKV), and padded rows (Prefix Grouper).

  The row-wise parts of the layer are arbitrary functions, and attention is an arbitrary function of a
  query and the keys and values it can see, in order. The reference is a conversation run alone.
 */
module PromptSharing {
  import opened Sequences

  // ----- Packed sequences -----------------------------------------------------------------------------

  function Clip(x: int, top: nat): nat {
    if x < 0 then 0 else if x > top then top else x
  }

  function Map<A, B>(f: A -> B, xs: seq<A>): (ys: seq<B>)
    ensures |ys| == |xs|
    ensures forall t | 0 <= t < |xs| :: ys[t] == f(xs[t])
  {
    seq(|xs|, t requires 0 <= t < |xs| => f(xs[t]))
  }

  /** Cumulative offsets into a buffer of `total` rows. */
  predicate Offsets(cu: seq<nat>, total: nat) {
    && |cu| > 0 && cu[0] == 0 && cu[|cu| - 1] == total
    && (forall x, y | 0 <= x <= y < |cu| :: cu[x] <= cu[y])
  }

  /** `cu` holds the cumulative lengths of `parts`. */
  predicate CuOf<T>(cu: seq<nat>, parts: seq<seq<T>>) {
    && |cu| == |parts| + 1 && cu[0] == 0
    && (forall x | 0 <= x < |parts| :: cu[x + 1] == cu[x] + |parts[x]|)
  }

  lemma {:induction false} CuIsLength<T>(cu: seq<nat>, parts: seq<seq<T>>, n: nat)
    requires CuOf(cu, parts) && n <= |parts|
    ensures cu[n] == |Concat(parts[..n])|
  {
    if n > 0 {
      CuIsLength(cu, parts, n - 1);
      assert parts[..n][..n - 1] == parts[..n - 1];
    }
  }

  lemma {:induction false} CuOrdered<T>(cu: seq<nat>, parts: seq<seq<T>>, x: nat, y: nat)
    requires CuOf(cu, parts) && x <= y < |cu|
    ensures cu[x] <= cu[y]
    decreases y - x
  {
    if x < y {
      CuOrdered(cu, parts, x, y - 1);
    }
  }

  /** Cumulative lengths are offsets into the concatenation. */
  lemma CuOffsets<T>(cu: seq<nat>, parts: seq<seq<T>>)
    requires CuOf(cu, parts)
    ensures Offsets(cu, |Concat(parts)|)
  {
    CuIsLength(cu, parts, |parts|);
    assert parts[..|parts|] == parts;
    forall x, y | 0 <= x <= y < |cu| ensures cu[x] <= cu[y] {
      CuOrdered(cu, parts, x, y);
    }
  }

  lemma {:induction false} ConcatSplits<T>(parts: seq<seq<T>>, n: nat)
    requires n <= |parts|
    ensures Concat(parts) == Concat(parts[..n]) + Concat(parts[n..])
    decreases |parts| - n
  {
    if n == |parts| {
      assert parts[..n] == parts;
    } else {
      ConcatSplits(parts, n + 1);
      ConcatFirst(parts[n..]);
      assert parts[n..][1..] == parts[n + 1..];
      assert parts[..n + 1][..n] == parts[..n];
    }
  }

  lemma {:induction false} ConcatFirst<T>(parts: seq<seq<T>>)
    requires parts != []
    ensures Concat(parts) == parts[0] + Concat(parts[1..])
  {
    if |parts| > 1 {
      var shorter := parts[..|parts| - 1];
      ConcatFirst(shorter);
      assert shorter[1..] == parts[1..][..|parts| - 2];
      assert parts[1..][|parts| - 2] == parts[|parts| - 1];
    }
  }

  /** The segment between two consecutive offsets is the part itself. */
  lemma SegmentIsPart<T>(cu: seq<nat>, parts: seq<seq<T>>, n: nat)
    requires CuOf(cu, parts) && n < |parts|
    ensures cu[n] <= cu[n + 1] <= |Concat(parts)|
    ensures Concat(parts)[cu[n]..cu[n + 1]] == parts[n]
  {
    CuIsLength(cu, parts, n);
    ConcatSplits(parts, n);
    ConcatFirst(parts[n..]);
  }

  lemma MapSlice<A, B>(f: A -> B, xs: seq<A>, lo: nat, hi: nat)
    requires lo <= hi <= |xs|
    ensures Map(f, xs)[lo..hi] == Map(f, xs[lo..hi])
  {
  }

  lemma MapAppend<A, B>(f: A -> B, xs: seq<A>, ys: seq<A>)
    ensures Map(f, xs + ys) == Map(f, xs) + Map(f, ys)
  {
  }

  /**
    `qOf`, `kOf`, `vOf` are the input norm followed by a projection; `finish` is everything after
    attention, which needs the residual row and the attention row.
   */
  datatype Layer<!H, !Q, !K, !V, !O> = Layer(
    qOf: H -> Q, kOf: H -> K, vOf: H -> V,
    attend: (Q, seq<K>, seq<V>) -> O,
    finish: (H, O) -> H)
  {
    // ----- Attention kernels ------------------------------------------------------------------------

    /** Bottom-right aligned causal attention of one sequence. */
    function CausalSegment(qs: seq<Q>, ks: seq<K>, vs: seq<V>): (os: seq<O>)
      requires |ks| == |vs|
      ensures |os| == |qs|
    {
      seq(|qs|, r requires 0 <= r < |qs| =>
        var limit := Clip(r + 1 + |ks| - |qs|, |ks|);
        attend(qs[r], ks[..limit], vs[..limit]))
    }

    /** `flash_attn_varlen_func` with `causal=True`: the first `n` packed sequences. */
    function Varlen(qs: seq<Q>, ks: seq<K>, vs: seq<V>, cuQ: seq<nat>, cuK: seq<nat>, n: nat): (os: seq<O>)
      requires Offsets(cuQ, |qs|) && Offsets(cuK, |ks|) && |ks| == |vs| && n < |cuQ| == |cuK|
      ensures |os| == cuQ[n]
    {
      if n == 0 then []
      else
        Varlen(qs, ks, vs, cuQ, cuK, n - 1)
        + CausalSegment(qs[cuQ[n - 1]..cuQ[n]], ks[cuK[n - 1]..cuK[n]], vs[cuK[n - 1]..cuK[n]])
    }

    /** `flash_attn_dualkv_varlen_func` with `causal=True`: context keys, then the sequence's own. */
    function DualKVVarlen(qs: seq<Q>, kContext: seq<K>, vContext: seq<V>, kDecoded: seq<K>, vDecoded: seq<V>,
                          cuQ: seq<nat>, cuK: seq<nat>, n: nat): (os: seq<O>)
      requires Offsets(cuQ, |qs|) && Offsets(cuK, |kDecoded|) && n < |cuQ| == |cuK|
      requires |kContext| == |vContext| && |kDecoded| == |vDecoded|
      ensures |os| == cuQ[n]
    {
      if n == 0 then []
      else
        DualKVVarlen(qs, kContext, vContext, kDecoded, vDecoded, cuQ, cuK, n - 1)
        + CausalSegment(qs[cuQ[n - 1]..cuQ[n]],
                        kContext + kDecoded[cuK[n - 1]..cuK[n]], vContext + vDecoded[cuK[n - 1]..cuK[n]])
    }

    // ----- The layer, layout by layout ----------------------------------------------------------------

    function FinishAll(residual: seq<H>, attn: seq<O>): (h: seq<H>)
      requires |residual| == |attn|
      ensures |h| == |residual|
    {
      seq(|residual|, t requires 0 <= t < |residual| => finish(residual[t], attn[t]))
    }

    function SelfAttention(x: seq<H>): (os: seq<O>)
      ensures |os| == |x|
    {
      CausalSegment(Map(qOf, x), Map(kOf, x), Map(vOf, x))
    }

    /** The reference: the layer applied to one conversation on its own. */
    function Solo(x: seq<H>): (y: seq<H>)
      ensures |y| == |x|
    {
      FinishAll(x, SelfAttention(x))
    }

    function Solos(parts: seq<seq<H>>): (ys: seq<seq<H>>)
      ensures |ys| == |parts| && forall b | 0 <= b < |parts| :: |ys[b]| == |parts[b]|
    {
      seq(|parts|, b requires 0 <= b < |parts| => Solo(parts[b]))
    }

    /** The response rows of conversations that share a prompt. */
    function Tails(prompt: seq<H>, responses: seq<seq<H>>): (ys: seq<seq<H>>)
      ensures |ys| == |responses| && forall b | 0 <= b < |responses| :: |ys[b]| == |responses[b]|
    {
      seq(|responses|, b requires 0 <= b < |responses| => Solo(prompt + responses[b])[|prompt|..])
    }

    /** `forward_fa2_varlen` */
    function ForwardFa2(hidden: seq<H>, cu: seq<nat>): (h: seq<H>)
      requires Offsets(cu, |hidden|)
      ensures |h| == |hidden|
    {
      FinishAll(hidden, Varlen(Map(qOf, hidden), Map(kOf, hidden), Map(vOf, hidden), cu, cu, |cu| - 1))
    }

    /** `forward_dualkv` */
    function ForwardDualKV(hidden: seq<H>, cuDec: seq<nat>, prefixLen: nat): (h: seq<H>)
      requires prefixLen <= |hidden| && Offsets(cuDec, |hidden| - prefixLen)
      ensures |h| == |hidden|
    {
      var q, k, v := Map(qOf, hidden), Map(kOf, hidden), Map(vOf, hidden);
      var cuContext := [0, prefixLen];
      var contextOut := Varlen(q[..prefixLen], k[..prefixLen], v[..prefixLen], cuContext, cuContext, 1);
      var decodedOut := DualKVVarlen(q[prefixLen..], k[..prefixLen], v[..prefixLen], k[prefixLen..], v[prefixLen..],
                                     cuDec, cuDec, |cuDec| - 1);
      FinishAll(hidden, contextOut + decodedOut)
    }

    /** `forward_prefix_grouper`: padded rows; the prefix of row 0 stands for every row's prefix. */
    function ForwardPrefixGrouper(hidden: seq<seq<H>>, prefixLen: nat): (h: seq<seq<H>>)
      requires forall b | 0 <= b < |hidden| :: |hidden[b]| == |hidden[0]| >= prefixLen
      ensures |h| == |hidden|
    {
      seq(|hidden|, b requires 0 <= b < |hidden| =>
        var q, k, v := Map(qOf, hidden[b]), Map(kOf, hidden[b]), Map(vOf, hidden[b]);
        var q0, k0, v0 := Map(qOf, hidden[0]), Map(kOf, hidden[0]), Map(vOf, hidden[0]);
        var prefixOut := CausalSegment(q0[..prefixLen], k0[..prefixLen], v0[..prefixLen]);
        var suffixOut := CausalSegment(q[prefixLen..], k0[..prefixLen] + k[prefixLen..],
            v0[..prefixLen] + v[prefixLen..]);
        FinishAll(hidden[b], prefixOut + suffixOut))
    }

    // ----- Causality ----------------------------------------------------------------------------------

    /** A causal conversation's prefix does not depend on what follows. */
    lemma SoloPrefix(x: seq<H>, n: nat)
      requires n <= |x|
      ensures Solo(x)[..n] == Solo(x[..n])
    {
      forall t | 0 <= t < n ensures Solo(x)[t] == Solo(x[..n])[t] {
        assert Map(kOf, x)[..t + 1] == Map(kOf, x[..n])[..t + 1];
        assert Map(vOf, x)[..t + 1] == Map(vOf, x[..n])[..t + 1];
      }
    }

    /** Attention over context then own keys is the tail of attention over the joined conversation. */
    lemma JoinedSegment(p: seq<H>, r: seq<H>)
      ensures CausalSegment(Map(qOf, r), Map(kOf, p) + Map(kOf, r), Map(vOf, p) + Map(vOf, r))
           == SelfAttention(p + r)[|p|..]
    {
      MapAppend(kOf, p, r);
      MapAppend(vOf, p, r);
      var left, right := CausalSegment(Map(qOf, r), Map(kOf, p) + Map(kOf, r), Map(vOf, p) + Map(vOf, r)),
          SelfAttention(p + r)[|p|..];
      forall t | 0 <= t < |r| ensures left[t] == right[t] {
        assert (p + r)[|p| + t] == r[t];
        assert Map(qOf, p + r)[|p| + t] == Map(qOf, r)[t];
      }
    }

    lemma FinishAppend(a: seq<H>, b: seq<H>, c: seq<O>, d: seq<O>)
      requires |a| == |c| && |b| == |d|
      ensures FinishAll(a + b, c + d) == FinishAll(a, c) + FinishAll(b, d)
    {
    }

    lemma FinishSlice(a: seq<H>, c: seq<O>, n: nat)
      requires |a| == |c| && n <= |a|
      ensures FinishAll(a, c)[n..] == FinishAll(a[n..], c[n..])
    {
    }

    // ----- Layouts mean the same ------------------------------------------------------------------------

    lemma {:induction false} VarlenParts(parts: seq<seq<H>>, cu: seq<nat>, n: nat)
      requires CuOf(cu, parts) && n <= |parts| && Offsets(cu, |Concat(parts)|)
      ensures |Concat(parts[..n])| == cu[n]
      ensures var x := Concat(parts);
              FinishAll(Concat(parts[..n]), Varlen(Map(qOf, x), Map(kOf, x), Map(vOf, x), cu, cu, n))
              == Concat(Solos(parts)[..n])
    {
      CuIsLength(cu, parts, n);
      if n > 0 {
        VarlenParts(parts, cu, n - 1);
        var x := Concat(parts);
        VarlenStep(parts, cu, n);
        ConcatPrefix(parts, n);
        ConcatPrefix(Solos(parts), n);
        hide SelfAttention, Varlen, FinishAll, Map, CuOf, Offsets, Concat;
        FinishAppend(Concat(parts[..n - 1]), parts[n - 1],
                     Varlen(Map(qOf, x), Map(kOf, x), Map(vOf, x), cu, cu, n - 1), SelfAttention(parts[n - 1]));
      }
    }

    /** The attention of the next segment is that of the next part alone. */
    lemma VarlenStep(parts: seq<seq<H>>, cu: seq<nat>, n: nat)
      requires CuOf(cu, parts) && 0 < n <= |parts| && Offsets(cu, |Concat(parts)|)
      ensures var x := Concat(parts);
              Varlen(Map(qOf, x), Map(kOf, x), Map(vOf, x), cu, cu, n)
              == Varlen(Map(qOf, x), Map(kOf, x), Map(vOf, x), cu, cu, n - 1) + SelfAttention(parts[n - 1])
    {
      hide Concat;
      var x := Concat(parts);
      SegmentIsPart(cu, parts, n - 1);
      MapSlice(qOf, x, cu[n - 1], cu[n]);
      MapSlice(kOf, x, cu[n - 1], cu[n]);
      MapSlice(vOf, x, cu[n - 1], cu[n]);
    }

    /** Packing conversations one after another runs each of them alone. */
    lemma Fa2IsSolo(parts: seq<seq<H>>, cu: seq<nat>)
      requires CuOf(cu, parts)
      ensures Offsets(cu, |Concat(parts)|)
      ensures ForwardFa2(Concat(parts), cu) == Concat(Solos(parts))
    {
      CuOffsets(cu, parts);
      VarlenParts(parts, cu, |parts|);
      assert parts[..|parts|] == parts;
      assert Solos(parts)[..|parts|] == Solos(parts);
    }

    /** A response's rows: finishing its own residual rows with the tail of the joined attention. */
    lemma TailForm(p: seq<H>, r: seq<H>)
      ensures Solo(p + r)[|p|..]
           == FinishAll(r, CausalSegment(Map(qOf, r), Map(kOf, p) + Map(kOf, r), Map(vOf, p) + Map(vOf, r)))
    {
      JoinedSegment(p, r);
      FinishSlice(p + r, SelfAttention(p + r), |p|);
      assert (p + r)[|p|..] == r;
    }

    lemma {:induction false} DualKVParts(p: seq<H>, rs: seq<seq<H>>, cu: seq<nat>, n: nat)
      requires CuOf(cu, rs) && n <= |rs| && Offsets(cu, |Concat(rs)|)
      ensures |Concat(rs[..n])| == cu[n]
      ensures var x := Concat(rs);
              FinishAll(Concat(rs[..n]),
                        DualKVVarlen(Map(qOf, x), Map(kOf, p), Map(vOf, p), Map(kOf, x), Map(vOf, x), cu, cu, n))
              == Concat(Tails(p, rs)[..n])
    {
      hide CausalSegment, FinishAll, Solo, SelfAttention, Offsets;
      CuIsLength(cu, rs, n);
      var x := Concat(rs);
      if n > 0 {
        DualKVParts(p, rs, cu, n - 1);
        SegmentIsPart(cu, rs, n - 1);
        MapSlice(qOf, x, cu[n - 1], cu[n]);
        MapSlice(kOf, x, cu[n - 1], cu[n]);
        MapSlice(vOf, x, cu[n - 1], cu[n]);
        assert rs[..n][..n - 1] == rs[..n - 1];
        assert Tails(p, rs)[..n][..n - 1] == Tails(p, rs)[..n - 1];
        TailForm(p, rs[n - 1]);
        FinishAppend(Concat(rs[..n - 1]), rs[n - 1],
                     DualKVVarlen(Map(qOf, x), Map(kOf, p), Map(vOf, p), Map(kOf, x), Map(vOf, x), cu, cu, n - 1),
                     CausalSegment(Map(qOf, rs[n - 1]), Map(kOf, p) + Map(kOf, rs[n - 1]),
                         Map(vOf, p) + Map(vOf, rs[n - 1])));
      } else {
        EmptyFinish(p, x, cu);
      }
    }

    lemma EmptyFinish(p: seq<H>, x: seq<H>, cu: seq<nat>)
      requires Offsets(cu, |x|)
      ensures FinishAll([], DualKVVarlen(Map(qOf, x), Map(kOf, p), Map(vOf, p), Map(kOf, x), Map(vOf, x), cu, cu, 0))
              == []
    {
    }

    /** One shared prompt yields the prompt run alone, then every response as if it followed its own copy. */
    lemma DualKVIsSolo(p: seq<H>, rs: seq<seq<H>>, cu: seq<nat>)
      requires CuOf(cu, rs)
      ensures Offsets(cu, |p + Concat(rs)| - |p|)
      ensures ForwardDualKV(p + Concat(rs), cu, |p|) == Solo(p) + Concat(Tails(p, rs))
    {
      CuOffsets(cu, rs);
      var x := Concat(rs);
      DualKVParts(p, rs, cu, |rs|);
      assert rs[..|rs|] == rs;
      assert Tails(p, rs)[..|rs|] == Tails(p, rs);
      MapAppend(qOf, p, x);
      MapAppend(kOf, p, x);
      MapAppend(vOf, p, x);
      assert Map(qOf, p + x)[..|p|] == Map(qOf, p) && Map(qOf, p + x)[|p|..] == Map(qOf, x);
      assert Map(kOf, p + x)[..|p|] == Map(kOf, p) && Map(kOf, p + x)[|p|..] == Map(kOf, x);
      assert Map(vOf, p + x)[..|p|] == Map(vOf, p) && Map(vOf, p + x)[|p|..] == Map(vOf, x);
      ContextVarlen(p);
      FinishAppend(p, x, SelfAttention(p),
                   DualKVVarlen(Map(qOf, x), Map(kOf, p), Map(vOf, p), Map(kOf, x), Map(vOf, x), cu, cu, |cu| - 1));
    }

    lemma ContextVarlen(p: seq<H>)
      ensures Offsets([0, |p|], |p|)
      ensures Varlen(Map(qOf, p), Map(kOf, p), Map(vOf, p), [0, |p|], [0, |p|], 1) == SelfAttention(p)
    {
      var cu: seq<nat> := [0, |p|];
      assert Map(qOf, p)[cu[0]..cu[1]] == Map(qOf, p);
      assert Map(kOf, p)[cu[0]..cu[1]] == Map(kOf, p);
      assert Map(vOf, p)[cu[0]..cu[1]] == Map(vOf, p);
      assert Varlen(Map(qOf, p), Map(kOf, p), Map(vOf, p), cu, cu, 0) == [];
    }

    /** With a common prefix every padded row is run alone. */
    lemma PrefixGrouperIsSolo(rows: seq<seq<H>>, prefixLen: nat)
      requires forall b | 0 <= b < |rows| :: |rows[b]| == |rows[0]| >= prefixLen
      requires forall b | 0 <= b < |rows| :: rows[b][..prefixLen] == rows[0][..prefixLen]
      ensures ForwardPrefixGrouper(rows, prefixLen) == Solos(rows)
    {
      forall b | 0 <= b < |rows| ensures ForwardPrefixGrouper(rows, prefixLen)[b] == Solo(rows[b]) {
        PrefixGrouperRow(rows, prefixLen, b);
      }
    }

    lemma PrefixGrouperRow(rows: seq<seq<H>>, prefixLen: nat, b: nat)
      requires b < |rows|
      requires forall b | 0 <= b < |rows| :: |rows[b]| == |rows[0]| >= prefixLen
      requires rows[b][..prefixLen] == rows[0][..prefixLen]
      ensures ForwardPrefixGrouper(rows, prefixLen)[b] == Solo(rows[b])
    {
      hide CausalSegment, FinishAll, Solo, SelfAttention;
      var p, r := rows[b][..prefixLen], rows[b][prefixLen..];
      assert rows[b] == p + r;
      SlicesOfRow(rows[0], prefixLen);
      SlicesOfRow(rows[b], prefixLen);
      FinishAppend(p, r, SelfAttention(p),
                   CausalSegment(Map(qOf, r), Map(kOf, p) + Map(kOf, r), Map(vOf, p) + Map(vOf, r)));
      SelfAttentionForm(p);
      TailForm(p, r);
      SoloPrefix(p + r, |p|);
      assert (p + r)[..|p|] == p;
      SoloForm(p);
      assert Solo(p + r) == Solo(p + r)[..|p|] + Solo(p + r)[|p|..];
    }

    lemma SlicesOfRow(x: seq<H>, n: nat)
      requires n <= |x|
      ensures Map(qOf, x)[..n] == Map(qOf, x[..n]) && Map(qOf, x)[n..] == Map(qOf, x[n..])
      ensures Map(kOf, x)[..n] == Map(kOf, x[..n]) && Map(kOf, x)[n..] == Map(kOf, x[n..])
      ensures Map(vOf, x)[..n] == Map(vOf, x[..n]) && Map(vOf, x)[n..] == Map(vOf, x[n..])
    {
    }

    lemma SelfAttentionForm(x: seq<H>)
      ensures SelfAttention(x) == CausalSegment(Map(qOf, x), Map(kOf, x), Map(vOf, x))
    {
    }

    lemma SoloForm(x: seq<H>)
      ensures Solo(x) == FinishAll(x, SelfAttention(x))
    {
    }
  }

  // ----- Any number of layers -----------------------------------------------------------------------

  function StackSolo<H, Q, K, V, O>(layers: seq<Layer<H, Q, K, V, O>>, x: seq<H>): (y: seq<H>)
    ensures |y| == |x|
  {
    if layers == [] then x else StackSolo(layers[1..], layers[0].Solo(x))
  }

  function StackFa2<H, Q, K, V, O>(layers: seq<Layer<H, Q, K, V, O>>, hidden: seq<H>, cu: seq<nat>): (h: seq<H>)
    requires Offsets(cu, |hidden|)
    ensures |h| == |hidden|
  {
    if layers == [] then hidden else StackFa2(layers[1..], layers[0].ForwardFa2(hidden, cu), cu)
  }

  function StackDualKV<H, Q, K, V, O>(
      layers: seq<Layer<H, Q, K, V, O>>, hidden: seq<H>, cuDec: seq<nat>, prefixLen: nat): (h: seq<H>)
    requires prefixLen <= |hidden| && Offsets(cuDec, |hidden| - prefixLen)
    ensures |h| == |hidden|
  {
    if layers == [] then hidden
    else StackDualKV(layers[1..], layers[0].ForwardDualKV(hidden, cuDec, prefixLen), cuDec, prefixLen)
  }

  ghost predicate CommonPrefix<H>(rows: seq<seq<H>>, prefixLen: nat) {
    forall b | 0 <= b < |rows| :: |rows[b]| == |rows[0]| >= prefixLen && rows[b][..prefixLen] == rows[0][..prefixLen]
  }

  ghost function StackPrefixGrouper<H, Q, K, V, O>(
      layers: seq<Layer<H, Q, K, V, O>>, rows: seq<seq<H>>, prefixLen: nat): (ys: seq<seq<H>>)
    requires CommonPrefix(rows, prefixLen)
    ensures |ys| == |rows| && forall b | 0 <= b < |rows| :: |ys[b]| == |rows[b]|
  {
    if layers == [] then rows
    else
      SolosKeepPrefix(layers[0], rows, prefixLen);
      StackPrefixGrouper(layers[1..], layers[0].ForwardPrefixGrouper(rows, prefixLen), prefixLen)
  }

  lemma SolosKeepPrefix<H, Q, K, V, O>(layer: Layer<H, Q, K, V, O>, rows: seq<seq<H>>, prefixLen: nat)
    requires CommonPrefix(rows, prefixLen)
    ensures layer.ForwardPrefixGrouper(rows, prefixLen) == layer.Solos(rows)
    ensures CommonPrefix(layer.Solos(rows), prefixLen)
  {
    layer.PrefixGrouperIsSolo(rows, prefixLen);
    forall b | 0 <= b < |rows| ensures layer.Solos(rows)[b][..prefixLen] == layer.Solos(rows)[0][..prefixLen] {
      layer.SoloPrefix(rows[b], prefixLen);
      layer.SoloPrefix(rows[0], prefixLen);
    }
  }

  function StackSolos<H, Q, K, V, O>(layers: seq<Layer<H, Q, K, V, O>>, parts: seq<seq<H>>): (ys: seq<seq<H>>)
    ensures |ys| == |parts| && forall b | 0 <= b < |parts| :: ys[b] == StackSolo(layers, parts[b])
  {
    seq(|parts|, b requires 0 <= b < |parts| => StackSolo(layers, parts[b]))
  }

  function StackTails<H, Q, K, V, O>(layers: seq<Layer<H, Q, K, V, O>>, p: seq<H>, rs: seq<seq<H>>): (ys: seq<seq<H>>)
    ensures |ys| == |rs| && forall b | 0 <= b < |rs| :: ys[b] == StackSolo(layers, p + rs[b])[|p|..]
  {
    seq(|rs|, b requires 0 <= b < |rs| => StackSolo(layers, p + rs[b])[|p|..])
  }

  lemma {:induction false} StackFa2IsSolo<H, Q, K, V, O>(
      layers: seq<Layer<H, Q, K, V, O>>, parts: seq<seq<H>>, cu: seq<nat>)
    requires CuOf(cu, parts)
    ensures Offsets(cu, |Concat(parts)|)
    ensures StackFa2(layers, Concat(parts), cu) == Concat(StackSolos(layers, parts))
    decreases |layers|
  {
    CuOffsets(cu, parts);
    if layers == [] {
      assert StackSolos(layers, parts) == parts;
    } else {
      var next := layers[0].Solos(parts);
      layers[0].Fa2IsSolo(parts, cu);
      StackFa2IsSolo(layers[1..], next, cu);
      assert StackSolos(layers[1..], next) == StackSolos(layers, parts);
    }
  }

  lemma {:induction false} StackDualKVIsSolo<H, Q, K, V, O>(
      layers: seq<Layer<H, Q, K, V, O>>, p: seq<H>, rs: seq<seq<H>>, cu: seq<nat>)
    requires CuOf(cu, rs)
    ensures Offsets(cu, |p + Concat(rs)| - |p|)
    ensures StackDualKV(layers, p + Concat(rs), cu, |p|) == StackSolo(layers, p) + Concat(StackTails(layers, p, rs))
    decreases |layers|
  {
    hide Concat, Offsets;
    assert Offsets(cu, |p + Concat(rs)| - |p|) by { CuOffsets(cu, rs); }
    if layers == [] {
      assert StackTails(layers, p, rs) == rs;
    } else {
      layers[0].DualKVIsSolo(p, rs, cu);
      StackDualKVIsSolo(layers[1..], layers[0].Solo(p), layers[0].Tails(p, rs), cu);
      TailsStep(layers, p, rs);
    }
  }

  /** The first layer's prompt and tails are the layer's conversations, cut at the prompt. */
  lemma TailsStep<H, Q, K, V, O>(layers: seq<Layer<H, Q, K, V, O>>, p: seq<H>, rs: seq<seq<H>>)
    requires layers != []
    ensures StackTails(layers[1..], layers[0].Solo(p), layers[0].Tails(p, rs)) == StackTails(layers, p, rs)
  {
    var p', rs' := layers[0].Solo(p), layers[0].Tails(p, rs);
    forall b | 0 <= b < |rs| ensures StackTails(layers[1..], p', rs')[b] == StackTails(layers, p, rs)[b] {
      layers[0].SoloPrefix(p + rs[b], |p|);
      assert (p + rs[b])[..|p|] == p;
      assert p' + rs'[b] == layers[0].Solo(p + rs[b]);
    }
  }

  lemma {:induction false} StackPrefixGrouperIsSolo<H, Q, K, V, O>(
      layers: seq<Layer<H, Q, K, V, O>>, rows: seq<seq<H>>, prefixLen: nat)
    requires CommonPrefix(rows, prefixLen)
    ensures StackPrefixGrouper(layers, rows, prefixLen) == StackSolos(layers, rows)
    decreases |layers|
  {
    if layers == [] {
      assert StackSolos(layers, rows) == rows;
    } else {
      SolosKeepPrefix(layers[0], rows, prefixLen);
      var next := layers[0].Solos(rows);
      StackPrefixGrouperIsSolo(layers[1..], next, prefixLen);
      assert StackSolos(layers[1..], next) == StackSolos(layers, rows);
    }
  }

  lemma {:induction false} StackSoloPrefix<H, Q, K, V, O>(layers: seq<Layer<H, Q, K, V, O>>, x: seq<H>, n: nat)
    requires n <= |x|
    ensures StackSolo(layers, x)[..n] == StackSolo(layers, x[..n])
    decreases |layers|
  {
    if layers != [] {
      layers[0].SoloPrefix(x, n);
      StackSoloPrefix(layers[1..], layers[0].Solo(x), n);
    }
  }

  function WithPrompt<H>(p: seq<H>, rs: seq<seq<H>>): (parts: seq<seq<H>>)
    ensures |parts| == |rs| && forall b | 0 <= b < |rs| :: parts[b] == p + rs[b]
  {
    seq(|rs|, b requires 0 <= b < |rs| => p + rs[b])
  }

  /** In the packing with one prompt copy per response, replica `b` is conversation `b` run alone. */
  lemma Fa2Replica<H, Q, K, V, O>(layers: seq<Layer<H, Q, K, V, O>>, parts: seq<seq<H>>, cu: seq<nat>, b: nat)
    requires CuOf(cu, parts) && b < |parts|
    ensures Offsets(cu, |Concat(parts)|) && cu[b] + |parts[b]| == cu[b + 1] <= |Concat(parts)|
    ensures StackFa2(layers, Concat(parts), cu)[cu[b]..cu[b + 1]] == StackSolo(layers, parts[b])
  {
    hide StackFa2, StackSolo, Concat, Offsets;
    StackFa2IsSolo(layers, parts, cu);
    SegmentIsPart(cu, StackSolos(layers, parts), b);
    SegmentIsPart(cu, parts, b);
  }

  /** In the shared-prompt packing, the prompt rows and response `b` are conversation `b` run alone. */
  lemma DualKVReplica<H, Q, K, V, O>(
      layers: seq<Layer<H, Q, K, V, O>>, p: seq<H>, rs: seq<seq<H>>, cu: seq<nat>, b: nat)
    requires CuOf(cu, rs) && b < |rs|
    ensures Offsets(cu, |p + Concat(rs)| - |p|) && cu[b] + |rs[b]| == cu[b + 1] <= |Concat(rs)|
    ensures var dual := StackDualKV(layers, p + Concat(rs), cu, |p|);
            dual[..|p|] + dual[|p| + cu[b]..|p| + cu[b + 1]] == StackSolo(layers, p + rs[b])
  {
    hide StackDualKV, StackSolo, Concat, Offsets;
    StackDualKVIsSolo(layers, p, rs, cu);
    SegmentIsPart(cu, StackTails(layers, p, rs), b);
    SegmentIsPart(cu, rs, b);
    SliceAfter(StackSolo(layers, p), Concat(StackTails(layers, p, rs)), cu[b], cu[b + 1]);
    StackSoloPrefix(layers, p + rs[b], |p|);
    assert (p + rs[b])[..|p|] == p;
    SplitAt(StackSolo(layers, p + rs[b]), |p|);
  }

  lemma SplitAt<T>(x: seq<T>, n: nat)
    requires n <= |x|
    ensures x[..n] + x[n..] == x
  {
  }

  /**
    Prompt deduplication preserves meaning, for any number of layers. In the packing with one prompt copy
    per response, replica `b` holds the shared prompt's rows followed by exactly the rows that the
    shared-prompt packing holds for response `b`.
   */
  lemma DeduplicationPreservesMeaning<H, Q, K, V, O>(layers: seq<Layer<H, Q, K, V, O>>, p: seq<H>, rs: seq<seq<H>>,
                                                     cuFa2: seq<nat>, cuDec: seq<nat>, b: nat)
    requires CuOf(cuFa2, WithPrompt(p, rs)) && CuOf(cuDec, rs) && b < |rs|
    ensures Offsets(cuFa2, |Concat(WithPrompt(p, rs))|) && Offsets(cuDec, |p + Concat(rs)| - |p|)
    ensures cuFa2[b] + |p| <= cuFa2[b + 1] <= |Concat(WithPrompt(p, rs))|
    ensures cuDec[b] <= cuDec[b + 1] <= |Concat(rs)|
    ensures var fa2 := StackFa2(layers, Concat(WithPrompt(p, rs)), cuFa2);
            var dual := StackDualKV(layers, p + Concat(rs), cuDec, |p|);
            && fa2[cuFa2[b]..cuFa2[b] + |p|] == dual[..|p|]
            && fa2[cuFa2[b] + |p|..cuFa2[b + 1]] == dual[|p| + cuDec[b]..|p| + cuDec[b + 1]]
  {
    hide StackFa2, StackDualKV, StackSolo, Concat, Offsets;
    var parts := WithPrompt(p, rs);
    Fa2Replica(layers, parts, cuFa2, b);
    DualKVReplica(layers, p, rs, cuDec, b);
    var fa2 := StackFa2(layers, Concat(parts), cuFa2);
    var dual := StackDualKV(layers, p + Concat(rs), cuDec, |p|);
    SameHalves(fa2, cuFa2[b], cuFa2[b + 1], dual[..|p|], dual[|p| + cuDec[b]..|p| + cuDec[b + 1]]);
  }

  lemma SameHalves<T>(x: seq<T>, lo: nat, hi: nat, left: seq<T>, right: seq<T>)
    requires lo <= hi <= |x| && x[lo..hi] == left + right
    ensures x[lo..lo + |left|] == left && x[lo + |left|..hi] == right
  {
    assert x[lo..lo + |left|] == x[lo..hi][..|left|];
    assert x[lo + |left|..hi] == x[lo..hi][|left|..];
  }

  lemma SliceAfter<T>(x: seq<T>, y: seq<T>, lo: nat, hi: nat)
    requires lo <= hi <= |y|
    ensures (x + y)[..|x|] == x && (x + y)[|x| + lo..|x| + hi] == y[lo..hi]
  {
  }

  /** The padded layout agrees with the shared prompt on every row that is not padding. */
  lemma PrefixGrouperAgrees<H, Q, K, V, O>(layers: seq<Layer<H, Q, K, V, O>>, p: seq<H>, rs: seq<seq<H>>,
                                           rows: seq<seq<H>>, cuDec: seq<nat>, b: nat)
    requires CuOf(cuDec, rs) && b < |rs| == |rows|
    requires forall x | 0 <= x < |rows| :: |rows[x]| == |rows[0]| && p + rs[x] <= rows[x]
    ensures CommonPrefix(rows, |p|)
    ensures Offsets(cuDec, |p + Concat(rs)| - |p|) && cuDec[b] <= cuDec[b + 1] <= |Concat(rs)|
    ensures var row := StackPrefixGrouper(layers, rows, |p|)[b];
            var dual := StackDualKV(layers, p + Concat(rs), cuDec, |p|);
            row[..|p| + |rs[b]|] == dual[..|p|] + dual[|p| + cuDec[b]..|p| + cuDec[b + 1]]
  {
    hide StackDualKV, StackSolo, Concat, Offsets, StackPrefixGrouper;
    DualKVReplica(layers, p, rs, cuDec, b);
    PrefixesShared(rows, p, rs);
    StackPrefixGrouperIsSolo(layers, rows, |p|);
    var n := |p| + |rs[b]|;
    assert rows[b][..n] == p + rs[b];
    StackSoloPrefix(layers, rows[b], n);
  }

  lemma PrefixesShared<H>(rows: seq<seq<H>>, p: seq<H>, rs: seq<seq<H>>)
    requires |rows| == |rs| && forall x | 0 <= x < |rows| :: |rows[x]| == |rows[0]| && p + rs[x] <= rows[x]
    ensures CommonPrefix(rows, |p|)
  {
    forall b | 0 <= b < |rows| ensures rows[b][..|p|] == p {
      assert p <= p + rs[b];
    }
  }
}
