/**
  The two agreement checks that compare the layouts: build both packings in loops, run the attention or
  the layer once on each, gather the response rows, and compare.
 */
module LayoutChecks {
  import opened PromptSharing
  import opened Sequences

  // ----- One prompt copy per response against one shared prompt, one decoder layer ----------------------

  lemma ConcatPush<T>(parts: seq<seq<T>>, part: seq<T>)
    ensures Concat(parts + [part]) == Concat(parts) + part
  {
    assert (parts + [part])[..|parts|] == parts;
  }

  lemma PrefixPush<T>(xs: seq<T>, n: nat)
    requires n < |xs|
    ensures xs[..n + 1] == xs[..n] + [xs[n]]
  {
  }

  method PackReplicas<H>(prompt: seq<H>, responses: seq<seq<H>>) returns (hidden: seq<H>, cu: seq<nat>)
    ensures hidden == Concat(WithPrompt(prompt, responses))
    ensures CuOf(cu, WithPrompt(prompt, responses))
  {
    hide Concat;
    ghost var parts := WithPrompt(prompt, responses);
    hidden, cu := [], [0];
    assert Concat(parts[..0]) == [] by { EmptyConcat(parts); }
    for i := 0 to |responses|
      invariant hidden == Concat(parts[..i])
      invariant CuOf(cu, parts[..i])
    {
      hidden := hidden + prompt;
      hidden := hidden + responses[i];
      cu := cu + [cu[|cu| - 1] + |prompt| + |responses[i]|];
      PrefixPush(parts, i);
      ConcatPush(parts[..i], parts[i]);
    }
    assert parts[..|parts|] == parts;
  }

  lemma EmptyConcat<T>(parts: seq<seq<T>>)
    ensures Concat(parts[..0]) == []
  {
  }

  method PackShared<H>(prompt: seq<H>, responses: seq<seq<H>>) returns (hidden: seq<H>, cu: seq<nat>)
    ensures hidden == prompt + Concat(responses)
    ensures CuOf(cu, responses)
  {
    hide Concat;
    hidden, cu := prompt, [0];
    assert Concat(responses[..0]) == [] by { EmptyConcat(responses); }
    for i := 0 to |responses|
      invariant hidden == prompt + Concat(responses[..i])
      invariant CuOf(cu, responses[..i])
    {
      hidden := hidden + responses[i];
      cu := cu + [cu[|cu| - 1] + |responses[i]|];
      PrefixPush(responses, i);
      ConcatPush(responses[..i], responses[i]);
    }
    assert responses[..|responses|] == responses;
  }

  /** Reads the response rows out of the replicated layout, skipping each copy of the prompt. */
  method GatherReplicas<H>(
      out: seq<H>, promptLen: nat, ghost parts: seq<seq<H>>, lengths: seq<nat>) returns (rows: seq<H>)
    requires out == Concat(parts) && |lengths| == |parts|
    requires forall b | 0 <= b < |parts| :: |parts[b]| == promptLen + lengths[b]
    ensures rows == Concat(Drops(promptLen, parts))
  {
    hide Concat;
    var offset := 0;
    rows := [];
    EmptyConcat(parts);
    EmptyConcat(Drops(promptLen, parts));
    for i := 0 to |lengths|
      invariant offset == |Concat(parts[..i])|
      invariant rows == Concat(Drops(promptLen, parts)[..i])
    {
      ghost var drops := Drops(promptLen, parts);
      PartAt(parts, i);
      rows := rows + out[offset + promptLen..offset + promptLen + lengths[i]];
      assert parts[i][promptLen..] == out[offset + promptLen..offset + promptLen + lengths[i]];
      PrefixPush(parts, i);
      PrefixPush(drops, i);
      ConcatPush(parts[..i], parts[i]);
      ConcatPush(drops[..i], drops[i]);
      offset := offset + promptLen + lengths[i];
    }
    assert Drops(promptLen, parts)[..|parts|] == Drops(promptLen, parts);
  }

  /** Reads the response rows out of the shared layout: they follow the prompt contiguously. */
  method GatherShared<H>(out: seq<H>, ghost prompt: seq<H>, promptLen: nat, ghost tails: seq<seq<H>>, lengths: seq<nat>)
      returns (rows: seq<H>)
    requires promptLen == |prompt| && out == prompt + Concat(tails) && |lengths| == |tails|
    requires forall b | 0 <= b < |tails| :: |tails[b]| == lengths[b]
    ensures rows == Concat(tails)
  {
    hide Concat;
    var offset := promptLen;
    rows := [];
    EmptyConcat(tails);
    for i := 0 to |lengths|
      invariant offset == promptLen + |Concat(tails[..i])|
      invariant rows == Concat(tails[..i])
    {
      PartAt(tails, i);
      rows := rows + out[offset..offset + lengths[i]];
      assert tails[i] == out[offset..offset + lengths[i]];
      PrefixPush(tails, i);
      ConcatPush(tails[..i], tails[i]);
      offset := offset + lengths[i];
    }
    assert tails[..|tails|] == tails;
  }

  lemma PartAt<T>(parts: seq<seq<T>>, n: nat)
    requires n < |parts|
    ensures var lo := |Concat(parts[..n])|;
            lo + |parts[n]| <= |Concat(parts)| && Concat(parts)[lo..lo + |parts[n]|] == parts[n]
  {
    ConcatSplits(parts, n);
    ConcatFirst(parts[n..]);
  }

  function Drops<T>(n: nat, parts: seq<seq<T>>): (ys: seq<seq<T>>)
    requires forall b | 0 <= b < |parts| :: n <= |parts[b]|
    ensures |ys| == |parts| && forall b | 0 <= b < |parts| :: ys[b] == parts[b][n..]
  {
    seq(|parts|, b requires 0 <= b < |parts| => parts[b][n..])
  }

  function Lengths<T>(parts: seq<seq<T>>): (ns: seq<nat>)
    ensures |ns| == |parts| && forall b | 0 <= b < |parts| :: ns[b] == |parts[b]|
  {
    seq(|parts|, b requires 0 <= b < |parts| => |parts[b]|)
  }

  /**
    The check run on one decoder layer: what the two packings put on the response rows is the same, and
    it is what every conversation run on its own puts there.
   */
  method CheckCorrectness<H, Q, K, V, O>(layer: Layer<H, Q, K, V, O>, prompt: seq<H>, responses: seq<seq<H>>)
      returns (fa2Cat: seq<H>, dkCat: seq<H>)
    requires |responses| > 0  // the longest response is taken with `max`
    ensures fa2Cat == dkCat
    ensures dkCat == Concat(layer.Tails(prompt, responses))
  {
    hide Concat, Offsets;
    ghost var parts := WithPrompt(prompt, responses);
    var hFa2, cuFa2 := PackReplicas(prompt, responses);
    var hDk, cuDec := PackShared(prompt, responses);
    layer.Fa2IsSolo(parts, cuFa2);
    layer.DualKVIsSolo(prompt, responses, cuDec);
    var outFa2 := layer.ForwardFa2(hFa2, cuFa2);
    var outDk := layer.ForwardDualKV(hDk, cuDec, |prompt|);
    fa2Cat := GatherReplicas(outFa2, |prompt|, layer.Solos(parts), Lengths(responses));
    dkCat := GatherShared(outDk, layer.Solo(prompt), |prompt|, layer.Tails(prompt, responses), Lengths(responses));
    assert Drops(|prompt|, layer.Solos(parts)) == layer.Tails(prompt, responses);
  }

  // ----- Queries of the prompt folded into the first sequence, attention only ---------------------------

  /** The first sequence also holds the prompt's queries. */
  function Folded<T>(prompt: seq<T>, responses: seq<seq<T>>): (parts: seq<seq<T>>)
    requires |responses| > 0
    ensures |parts| == |responses|
  {
    [prompt + responses[0]] + responses[1..]
  }

  /** `cu_q`: zeros, then `cu_q[1] = P + R`, then one response length per entry. */
  method FoldedOffsets<T>(
      ghost prompt: seq<T>, ghost responses: seq<seq<T>>, count: nat, promptLen: nat, responseLen: nat)
      returns (cu: array<nat>)
    requires count == |responses| > 0 && promptLen == |prompt|
    requires forall b | 0 <= b < count :: |responses[b]| == responseLen
    ensures CuOf(cu[..], Folded(prompt, responses))
  {
    cu := new nat[count + 1](_ => 0);
    cu[1] := promptLen + responseLen;
    for i := 2 to count + 1
      invariant cu[0] == 0 && cu[1] == promptLen + responseLen
      invariant forall x | 1 <= x < i - 1 :: cu[x + 1] == cu[x] + responseLen
    {
      cu[i] := cu[i - 1] + responseLen;
    }
  }

  lemma FoldedConcat<T>(prompt: seq<T>, responses: seq<seq<T>>)
    requires |responses| > 0
    ensures Concat(Folded(prompt, responses)) == prompt + Concat(responses)
  {
    hide Concat;
    var parts := Folded(prompt, responses);
    ConcatFirst(parts);
    ConcatFirst(responses);
    assert parts[1..] == responses[1..];
    Regroup(prompt, responses[0], Concat(responses[1..]));
  }

  lemma {:induction false} VarlenSegment<H, Q, K, V, O>(
      layer: Layer<H, Q, K, V, O>, qs: seq<Q>, ks: seq<K>, vs: seq<V>, cuQ: seq<nat>, cuK: seq<nat>, n: nat, b: nat)
    requires Offsets(cuQ, |qs|) && Offsets(cuK, |ks|) && |ks| == |vs| && b < n < |cuQ| == |cuK|
    ensures layer.Varlen(qs, ks, vs, cuQ, cuK, n)[cuQ[b]..cuQ[b + 1]]
         == layer.CausalSegment(qs[cuQ[b]..cuQ[b + 1]], ks[cuK[b]..cuK[b + 1]], vs[cuK[b]..cuK[b + 1]])
    decreases n
  {
    if b < n - 1 {
      VarlenSegment(layer, qs, ks, vs, cuQ, cuK, n - 1, b);
    }
  }

  lemma {:induction false} DualKVSegment<H, Q, K, V, O>(
      layer: Layer<H, Q, K, V, O>, qs: seq<Q>, kc: seq<K>, vc: seq<V>, kd: seq<K>, vd: seq<V>,
      cuQ: seq<nat>, cuK: seq<nat>, n: nat, b: nat)
    requires Offsets(cuQ, |qs|) && Offsets(cuK, |kd|) && b < n < |cuQ| == |cuK|
    requires |kc| == |vc| && |kd| == |vd|
    ensures layer.DualKVVarlen(qs, kc, vc, kd, vd, cuQ, cuK, n)[cuQ[b]..cuQ[b + 1]]
         == layer.CausalSegment(qs[cuQ[b]..cuQ[b + 1]],
                                kc + kd[cuK[b]..cuK[b + 1]], vc + vd[cuK[b]..cuK[b + 1]])
    decreases n
  {
    if b < n - 1 {
      DualKVSegment(layer, qs, kc, vc, kd, vd, cuQ, cuK, n - 1, b);
    }
  }

  /** Leading queries may be dropped: the causal mask is aligned to the bottom right. */
  lemma LastQueries<H, Q, K, V, O>(layer: Layer<H, Q, K, V, O>, p: seq<Q>, r: seq<Q>, ks: seq<K>, vs: seq<V>)
    requires |ks| == |vs|
    ensures layer.CausalSegment(p + r, ks, vs)[|p|..] == layer.CausalSegment(r, ks, vs)
  {
    forall t | 0 <= t < |r| ensures layer.CausalSegment(p + r, ks, vs)[|p|..][t] == layer.CausalSegment(r, ks, vs)[t] {
      assert (p + r)[|p| + t] == r[t];
    }
  }

  /** Queries, keys and values of a prompt or of one response. */
  datatype Rows<Q, K, V> = Rows(q: seq<Q>, k: seq<K>, v: seq<V>)
  {
    predicate Aligned() {
      |q| == |k| == |v|
    }
  }

  function Queries<Q, K, V>(rs: seq<Rows<Q, K, V>>): (ys: seq<seq<Q>>)
    ensures |ys| == |rs| && forall b | 0 <= b < |rs| :: ys[b] == rs[b].q
  {
    seq(|rs|, b requires 0 <= b < |rs| => rs[b].q)
  }

  function Keys<Q, K, V>(rs: seq<Rows<Q, K, V>>): (ys: seq<seq<K>>)
    ensures |ys| == |rs| && forall b | 0 <= b < |rs| :: ys[b] == rs[b].k
  {
    seq(|rs|, b requires 0 <= b < |rs| => rs[b].k)
  }

  function Values<Q, K, V>(rs: seq<Rows<Q, K, V>>): (ys: seq<seq<V>>)
    ensures |ys| == |rs| && forall b | 0 <= b < |rs| :: ys[b] == rs[b].v
  {
    seq(|rs|, b requires 0 <= b < |rs| => rs[b].v)
  }

  ghost predicate AllAligned<Q, K, V>(p: Rows<Q, K, V>, rs: seq<Rows<Q, K, V>>) {
    p.Aligned() && forall b | 0 <= b < |rs| :: rs[b].Aligned()
  }

  /** Attention of conversation `b` on its own. */
  function Alone<H, Q, K, V, O>(layer: Layer<H, Q, K, V, O>, p: Rows<Q, K, V>, r: Rows<Q, K, V>): (os: seq<O>)
    requires p.Aligned() && r.Aligned()
    ensures |os| == |p.q| + |r.q|
  {
    layer.CausalSegment(p.q + r.q, p.k + r.k, p.v + r.v)
  }

  lemma CuOfAligned<T, U>(cu: seq<nat>, xs: seq<seq<T>>, ys: seq<seq<U>>)
    requires CuOf(cu, xs) && |ys| == |xs| && forall b | 0 <= b < |xs| :: |ys[b]| == |xs[b]|
    ensures CuOf(cu, ys)
    ensures |Concat(ys)| == |Concat(xs)| == cu[|xs|]
  {
    CuIsLength(cu, xs, |xs|);
    CuIsLength(cu, ys, |ys|);
    assert xs[..|xs|] == xs && ys[..|ys|] == ys;
  }

  /** The replicated packing of queries, keys and values. */
  lemma ReplicaAlone<H, Q, K, V, O>(
      layer: Layer<H, Q, K, V, O>, p: Rows<Q, K, V>, rs: seq<Rows<Q, K, V>>, cu: seq<nat>, b: nat)
    requires AllAligned(p, rs) && CuOf(cu, WithPrompt(p.q, Queries(rs))) && b < |rs|
    ensures Offsets(cu, |Concat(WithPrompt(p.q, Queries(rs)))|) && Offsets(cu, |Concat(WithPrompt(p.k, Keys(rs)))|)
    ensures |Concat(WithPrompt(p.v, Values(rs)))| == |Concat(WithPrompt(p.k, Keys(rs)))|
    ensures layer.Varlen(Concat(WithPrompt(p.q, Queries(rs))), Concat(WithPrompt(p.k, Keys(rs))),
                         Concat(WithPrompt(p.v, Values(rs))), cu, cu, |rs|)[cu[b]..cu[b + 1]]
         == Alone(layer, p, rs[b])
  {
    hide Concat, Offsets;
    var qs, ks, vs := WithPrompt(p.q, Queries(rs)), WithPrompt(p.k, Keys(rs)), WithPrompt(p.v, Values(rs));
    CuOfAligned(cu, qs, ks);
    CuOfAligned(cu, qs, vs);
    CuOffsets(cu, qs);
    CuOffsets(cu, ks);
    SegmentIsPart(cu, qs, b);
    SegmentIsPart(cu, ks, b);
    SegmentIsPart(cu, vs, b);
    VarlenSegment(layer, Concat(qs), Concat(ks), Concat(vs), cu, cu, |rs|, b);
  }

  /** One segment of the folded layout is the same conversation, with the prompt's queries only in the first. */
  lemma FoldedSegment<H, Q, K, V, O>(layer: Layer<H, Q, K, V, O>, p: Rows<Q, K, V>, rs: seq<Rows<Q, K, V>>,
                                     cuQ: seq<nat>, cuK: seq<nat>, b: nat)
    requires AllAligned(p, rs) && b < |rs|
    requires CuOf(cuQ, Folded(p.q, Queries(rs))) && CuOf(cuK, Keys(rs))
    ensures Offsets(cuQ, |p.q + Concat(Queries(rs))|) && Offsets(cuK, |Concat(Keys(rs))|)
    ensures |Concat(Keys(rs))| == |Concat(Values(rs))|
    ensures cuQ[b + 1] == |p.q| + cuK[b + 1] && cuQ[b] == if b == 0 then 0 else |p.q| + cuK[b]
    ensures layer.DualKVVarlen(p.q + Concat(Queries(rs)), p.k, p.v, Concat(Keys(rs)), Concat(Values(rs)),
                               cuQ, cuK, |rs|)[cuQ[b]..cuQ[b + 1]]
         == if b == 0 then Alone(layer, p, rs[b]) else Alone(layer, p, rs[b])[|p.q|..]
  {
    hide Concat, Offsets;
    var qs, ks, vs := Folded(p.q, Queries(rs)), Keys(rs), Values(rs);
    FoldedConcat(p.q, Queries(rs));
    CuOfAligned(cuK, ks, vs);
    CuOffsets(cuQ, qs);
    CuOffsets(cuK, ks);
    SegmentIsPart(cuQ, qs, b);
    SegmentIsPart(cuK, ks, b);
    SegmentIsPart(cuK, vs, b);
    FoldedOffset(p, rs, cuQ, cuK, b);
    FoldedOffset(p, rs, cuQ, cuK, b + 1);
    DualKVSegment(layer, Concat(qs), p.k, p.v, Concat(ks), Concat(vs), cuQ, cuK, |rs|, b);
    LastQueries(layer, p.q, rs[b].q, p.k + rs[b].k, p.v + rs[b].v);
  }

  lemma {:induction false} FoldedOffset<Q, K, V>(
      p: Rows<Q, K, V>, rs: seq<Rows<Q, K, V>>, cuQ: seq<nat>, cuK: seq<nat>, n: nat)
    requires AllAligned(p, rs) && |rs| > 0 && n <= |rs|
    requires CuOf(cuQ, Folded(p.q, Queries(rs))) && CuOf(cuK, Keys(rs))
    ensures cuQ[n] == if n == 0 then 0 else |p.q| + cuK[n]
  {
    if n > 0 {
      FoldedOffset(p, rs, cuQ, cuK, n - 1);
      assert Folded(p.q, Queries(rs))[n - 1] == if n == 1 then p.q + rs[0].q else rs[n - 1].q;
    }
  }

  lemma ReplicaTail<H, Q, K, V, O>(
      layer: Layer<H, Q, K, V, O>, p: Rows<Q, K, V>, rs: seq<Rows<Q, K, V>>, cu: seq<nat>, b: nat)
    requires AllAligned(p, rs) && CuOf(cu, WithPrompt(p.q, Queries(rs))) && b < |rs|
    ensures Offsets(cu, |Concat(WithPrompt(p.q, Queries(rs)))|) && Offsets(cu, |Concat(WithPrompt(p.k, Keys(rs)))|)
    ensures |Concat(WithPrompt(p.v, Values(rs)))| == |Concat(WithPrompt(p.k, Keys(rs)))|
    ensures cu[b] + |p.q| <= cu[b + 1] <= cu[|rs|]
    ensures layer.Varlen(Concat(WithPrompt(p.q, Queries(rs))), Concat(WithPrompt(p.k, Keys(rs))),
                         Concat(WithPrompt(p.v, Values(rs))), cu, cu, |rs|)[cu[b] + |p.q|..cu[b + 1]]
         == Alone(layer, p, rs[b])[|p.q|..]
  {
    hide Concat, Offsets, Layer.Varlen;
    ReplicaAlone(layer, p, rs, cu, b);
    CuOrdered(cu, WithPrompt(p.q, Queries(rs)), b + 1, |rs|);
    DropFrom(layer.Varlen(Concat(WithPrompt(p.q, Queries(rs))), Concat(WithPrompt(p.k, Keys(rs))),
                          Concat(WithPrompt(p.v, Values(rs))), cu, cu, |rs|), cu[b], cu[b + 1], |p.q|);
  }

  lemma FoldedTail<H, Q, K, V, O>(layer: Layer<H, Q, K, V, O>, p: Rows<Q, K, V>, rs: seq<Rows<Q, K, V>>,
                                  cuQ: seq<nat>, cuK: seq<nat>, b: nat)
    requires AllAligned(p, rs) && b < |rs|
    requires CuOf(cuQ, Folded(p.q, Queries(rs))) && CuOf(cuK, Keys(rs))
    ensures Offsets(cuQ, |p.q + Concat(Queries(rs))|) && Offsets(cuK, |Concat(Keys(rs))|)
    ensures |Concat(Keys(rs))| == |Concat(Values(rs))|
    ensures cuK[b] <= cuK[b + 1] && |p.q| + cuK[b + 1] <= cuQ[|rs|]
    ensures layer.DualKVVarlen(p.q + Concat(Queries(rs)), p.k, p.v, Concat(Keys(rs)), Concat(Values(rs)),
                               cuQ, cuK, |rs|)[|p.q| + cuK[b]..|p.q| + cuK[b + 1]]
         == Alone(layer, p, rs[b])[|p.q|..]
  {
    hide Concat, Offsets, Layer.DualKVVarlen;
    FoldedSegment(layer, p, rs, cuQ, cuK, b);
    FoldedOffset(p, rs, cuQ, cuK, |rs|);
    CuOrdered(cuK, Keys(rs), b + 1, |rs|);
    if b == 0 {
      DropFrom(layer.DualKVVarlen(p.q + Concat(Queries(rs)), p.k, p.v, Concat(Keys(rs)), Concat(Values(rs)),
                                  cuQ, cuK, |rs|), cuQ[b], cuQ[b + 1], |p.q|);
    }
  }

  /**
    The folded layout computes the same attention: past the prompt its output lists, response by response,
    the rows that the replicated packing computes for that response.
   */
  lemma FoldedQueriesAgree<H, Q, K, V, O>(layer: Layer<H, Q, K, V, O>, p: Rows<Q, K, V>, rs: seq<Rows<Q, K, V>>,
                                          cuFa2: seq<nat>, cuQ: seq<nat>, cuK: seq<nat>, b: nat)
    requires AllAligned(p, rs) && b < |rs|
    requires CuOf(cuFa2, WithPrompt(p.q, Queries(rs)))
    requires CuOf(cuQ, Folded(p.q, Queries(rs))) && CuOf(cuK, Keys(rs))
    ensures Offsets(cuFa2, |Concat(WithPrompt(p.q, Queries(rs)))|) &&
            Offsets(cuFa2, |Concat(WithPrompt(p.k, Keys(rs)))|)
    ensures |Concat(WithPrompt(p.v, Values(rs)))| == |Concat(WithPrompt(p.k, Keys(rs)))|
    ensures Offsets(cuQ, |p.q + Concat(Queries(rs))|) && Offsets(cuK, |Concat(Keys(rs))|)
    ensures |Concat(Keys(rs))| == |Concat(Values(rs))|
    ensures cuFa2[b] + |p.q| <= cuFa2[b + 1] <= cuFa2[|rs|] && cuK[b] <= cuK[b + 1] && |p.q| + cuK[b + 1] <= cuQ[|rs|]
    ensures var fa2 := layer.Varlen(Concat(WithPrompt(p.q, Queries(rs))), Concat(WithPrompt(p.k, Keys(rs))),
                                    Concat(WithPrompt(p.v, Values(rs))), cuFa2, cuFa2, |rs|);
            var dual := layer.DualKVVarlen(p.q + Concat(Queries(rs)), p.k, p.v, Concat(Keys(rs)), Concat(Values(rs)),
                                           cuQ, cuK, |rs|);
            fa2[cuFa2[b] + |p.q|..cuFa2[b + 1]] == dual[|p.q| + cuK[b]..|p.q| + cuK[b + 1]]
  {
    hide Concat, Offsets, Layer.Varlen, Layer.DualKVVarlen;
    ReplicaTail(layer, p, rs, cuFa2, b);
    FoldedTail(layer, p, rs, cuQ, cuK, b);
  }

  lemma DropFrom<T>(x: seq<T>, lo: nat, hi: nat, n: nat)
    requires lo + n <= hi <= |x|
    ensures x[lo..hi][n..] == x[lo + n..hi]
  {
  }
}
