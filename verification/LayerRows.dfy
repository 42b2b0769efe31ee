/**
  What a decoder layer puts on each row, in every layout: the row finished with the attention of its query over
  the keys and values up to itself. And what a stack of layers does with them: one layer after another.
 */
module LayerRows {
  import opened Sequences
  import opened PromptSharing

  // ----- One layer --------------------------------------------------------------------------------------

  /** Row `t` of a conversation run alone sees itself and the rows before it. */
  lemma SoloRow<H, Q, K, V, O>(layer: Layer<H, Q, K, V, O>, x: seq<H>, t: nat)
    requires t < |x|
    ensures layer.Solo(x)[t]
         == layer.finish(x[t], layer.attend(layer.qOf(x[t]), Map(layer.kOf, x[..t + 1]), Map(layer.vOf, x[..t + 1])))
  {
    MapSlice(layer.kOf, x, 0, t + 1);
    MapSlice(layer.vOf, x, 0, t + 1);
  }

  /** With one prompt copy per response, row `cu[b] + t` is row `t` of conversation `b`. */
  lemma Fa2Row<H, Q, K, V, O>(layer: Layer<H, Q, K, V, O>, parts: seq<seq<H>>, cu: seq<nat>, b: nat, t: nat)
    requires CuOf(cu, parts) && b < |parts| && t < |parts[b]|
    ensures Offsets(cu, |Concat(parts)|) && cu[b] + t < |Concat(parts)|
    ensures layer.ForwardFa2(Concat(parts), cu)[cu[b] + t]
         == layer.finish(parts[b][t],
                         layer.attend(layer.qOf(parts[b][t]),
                                      Map(layer.kOf, parts[b][..t + 1]), Map(layer.vOf, parts[b][..t + 1])))
  {
    hide Layer.ForwardFa2, Layer.Solo, Concat, Offsets, Map;
    SegmentIsPart(cu, parts, b);
    SegmentIsPart(cu, layer.Solos(parts), b);
    layer.Fa2IsSolo(parts, cu);
    SoloRow(layer, parts[b], t);
    hide CuOf;
    RowInSegment(Concat(layer.Solos(parts)), cu[b], cu[b + 1], t);
  }

  lemma RowInSegment<T>(x: seq<T>, lo: nat, hi: nat, t: nat)
    requires lo + t < hi <= |x|
    ensures x[lo + t] == x[lo..hi][t]
  {
  }

  /** With a shared prompt, the prompt's rows see the prompt up to themselves. */
  lemma DualKVPromptRow<H, Q, K, V, O>(
    layer: Layer<H, Q, K, V, O>, p: seq<H>, rs: seq<seq<H>>, cu: seq<nat>, t: nat)
    requires CuOf(cu, rs) && t < |p|
    ensures Offsets(cu, |p + Concat(rs)| - |p|)
    ensures layer.ForwardDualKV(p + Concat(rs), cu, |p|)[t]
         == layer.finish(p[t], layer.attend(layer.qOf(p[t]), Map(layer.kOf, p[..t + 1]), Map(layer.vOf, p[..t + 1])))
  {
    layer.DualKVIsSolo(p, rs, cu);
    SoloRow(layer, p, t);
  }

  /** And a response's rows see the whole prompt, then their own response up to themselves. */
  lemma DualKVResponseRow<H, Q, K, V, O>(
    layer: Layer<H, Q, K, V, O>, p: seq<H>, rs: seq<seq<H>>, cu: seq<nat>, b: nat, t: nat)
    requires CuOf(cu, rs) && b < |rs| && t < |rs[b]|
    ensures Offsets(cu, |p + Concat(rs)| - |p|) && |p| + cu[b] + t < |p + Concat(rs)|
    ensures layer.ForwardDualKV(p + Concat(rs), cu, |p|)[|p| + cu[b] + t]
         == layer.finish(rs[b][t],
                         layer.attend(layer.qOf(rs[b][t]),
                                      Map(layer.kOf, p + rs[b][..t + 1]), Map(layer.vOf, p + rs[b][..t + 1])))
  {
    hide Layer.ForwardDualKV, Concat, CuOf, Offsets, Map, Layer.Solo;
    DualKVTail(layer, p, rs, cu, b, t);
    SoloRow(layer, p + rs[b], |p| + t);
    JoinedPrefix(p, rs[b], t + 1);
  }

  lemma DualKVTail<H, Q, K, V, O>(
    layer: Layer<H, Q, K, V, O>, p: seq<H>, rs: seq<seq<H>>, cu: seq<nat>, b: nat, t: nat)
    requires CuOf(cu, rs) && b < |rs| && t < |rs[b]|
    ensures Offsets(cu, |p + Concat(rs)| - |p|) && |p| + cu[b] + t < |p + Concat(rs)|
    ensures layer.ForwardDualKV(p + Concat(rs), cu, |p|)[|p| + cu[b] + t] == layer.Solo(p + rs[b])[|p| + t]
  {
    hide Layer.ForwardDualKV, Concat, Layer.Solo, Offsets;
    SegmentIsPart(cu, rs, b);
    SegmentIsPart(cu, layer.Tails(p, rs), b);
    layer.DualKVIsSolo(p, rs, cu);
    hide CuOf;
    var tails := Concat(layer.Tails(p, rs));
    RowInSegment(tails, cu[b], cu[b + 1], t);
    RowBehind(layer.Solo(p), tails, cu[b] + t);
  }

  lemma RowBehind<T>(x: seq<T>, y: seq<T>, t: nat)
    requires t < |y|
    ensures (x + y)[|x| + t] == y[t]
  {
  }

  lemma JoinedPrefix<T>(p: seq<T>, r: seq<T>, n: nat)
    requires n <= |r|
    ensures (p + r)[..|p| + n] == p + r[..n]
    ensures n > 0 ==> (p + r)[|p| + n - 1] == r[n - 1]
  {
  }

  /**
    With padded rows, row `t` of batch row `b` is finished with the attention of batch row 0 within the prefix,
    and behind it with that of its own query over row 0's prefix and its own suffix up to itself.
   */
  lemma PrefixGrouperAnyRow<H, Q, K, V, O>(
    layer: Layer<H, Q, K, V, O>, rows: seq<seq<H>>, prefixLen: nat, b: nat, t: nat)
    requires forall b | 0 <= b < |rows| :: |rows[b]| == |rows[0]| >= prefixLen
    requires b < |rows| && t < |rows[b]|
    ensures |layer.ForwardPrefixGrouper(rows, prefixLen)[b]| == |rows[b]|
    ensures t < prefixLen ==>
              layer.ForwardPrefixGrouper(rows, prefixLen)[b][t]
              == layer.finish(rows[b][t],
                              layer.attend(layer.qOf(rows[0][t]),
                                           Map(layer.kOf, rows[0][..t + 1]), Map(layer.vOf, rows[0][..t + 1])))
    ensures t >= prefixLen ==>
              layer.ForwardPrefixGrouper(rows, prefixLen)[b][t]
              == layer.finish(rows[b][t],
                              layer.attend(layer.qOf(rows[b][t]),
                                           Map(layer.kOf, rows[0][..prefixLen] + rows[b][prefixLen..t + 1]),
                                           Map(layer.vOf, rows[0][..prefixLen] + rows[b][prefixLen..t + 1])))
  {
    if t < prefixLen {
      PrefixOfMap(layer.kOf, rows[0], prefixLen, t + 1);
      PrefixOfMap(layer.vOf, rows[0], prefixLen, t + 1);
    } else {
      SuffixOfMap(layer.kOf, rows[0], rows[b], prefixLen, t + 1);
      SuffixOfMap(layer.vOf, rows[0], rows[b], prefixLen, t + 1);
    }
  }

  lemma PrefixOfMap<A, B>(f: A -> B, x: seq<A>, n: nat, t: nat)
    requires t <= n <= |x|
    ensures Map(f, x)[..n][..t] == Map(f, x[..t])
  {
  }

  lemma SuffixOfMap<A, B>(f: A -> B, x: seq<A>, y: seq<A>, n: nat, t: nat)
    requires n <= t <= |y| == |x|
    ensures (Map(f, x)[..n] + Map(f, y)[n..])[..t] == Map(f, x[..n] + y[n..t])
  {
  }

  /** With a common prefix that is the batch row up to itself. */
  lemma PrefixGrouperRowOf<H, Q, K, V, O>(
    layer: Layer<H, Q, K, V, O>, rows: seq<seq<H>>, prefixLen: nat, b: nat, t: nat)
    requires CommonPrefix(rows, prefixLen) && b < |rows| && t < |rows[b]|
    ensures |layer.ForwardPrefixGrouper(rows, prefixLen)[b]| == |rows[b]|
    ensures layer.ForwardPrefixGrouper(rows, prefixLen)[b][t]
         == layer.finish(rows[b][t],
                         layer.attend(layer.qOf(rows[b][t]),
                                      Map(layer.kOf, rows[b][..t + 1]), Map(layer.vOf, rows[b][..t + 1])))
  {
    layer.PrefixGrouperRow(rows, prefixLen, b);
    SoloRow(layer, rows[b], t);
  }

  // ----- Stacks -----------------------------------------------------------------------------------------

  /** A stack of one layer is that layer; a longer stack applies its first layers first. */
  lemma {:induction false} SoloStack<H, Q, K, V, O>(
    first: seq<Layer<H, Q, K, V, O>>, layer: Layer<H, Q, K, V, O>, rest: seq<Layer<H, Q, K, V, O>>, x: seq<H>)
    ensures StackSolo([layer], x) == layer.Solo(x)
    ensures StackSolo(first + rest, x) == StackSolo(rest, StackSolo(first, x))
    decreases |first|
  {
    hide Layer.Solo;
    assert StackSolo([layer][1..], layer.Solo(x)) == layer.Solo(x);
    if first == [] {
      assert first + rest == rest;
    } else {
      assert (first + rest)[1..] == first[1..] + rest;
      SoloStack(first[1..], layer, rest, first[0].Solo(x));
    }
  }

  lemma {:induction false} Fa2Stack<H, Q, K, V, O>(
    first: seq<Layer<H, Q, K, V, O>>, layer: Layer<H, Q, K, V, O>, rest: seq<Layer<H, Q, K, V, O>>,
    x: seq<H>, cu: seq<nat>)
    requires Offsets(cu, |x|)
    ensures StackFa2([layer], x, cu) == layer.ForwardFa2(x, cu)
    ensures StackFa2(first + rest, x, cu) == StackFa2(rest, StackFa2(first, x, cu), cu)
    decreases |first|
  {
    hide Layer.ForwardFa2, Offsets;
    assert StackFa2([layer][1..], layer.ForwardFa2(x, cu), cu) == layer.ForwardFa2(x, cu);
    if first == [] {
      assert first + rest == rest;
    } else {
      assert (first + rest)[1..] == first[1..] + rest;
      Fa2Stack(first[1..], layer, rest, first[0].ForwardFa2(x, cu), cu);
    }
  }

  lemma {:induction false} DualKVStack<H, Q, K, V, O>(
    first: seq<Layer<H, Q, K, V, O>>, layer: Layer<H, Q, K, V, O>, rest: seq<Layer<H, Q, K, V, O>>,
    x: seq<H>, cu: seq<nat>, prefixLen: nat)
    requires prefixLen <= |x| && Offsets(cu, |x| - prefixLen)
    ensures StackDualKV([layer], x, cu, prefixLen) == layer.ForwardDualKV(x, cu, prefixLen)
    ensures StackDualKV(first + rest, x, cu, prefixLen)
         == StackDualKV(rest, StackDualKV(first, x, cu, prefixLen), cu, prefixLen)
    decreases |first|
  {
    hide Layer.ForwardDualKV, Offsets;
    assert StackDualKV([layer][1..], layer.ForwardDualKV(x, cu, prefixLen), cu, prefixLen)
        == layer.ForwardDualKV(x, cu, prefixLen);
    if first == [] {
      assert first + rest == rest;
    } else {
      assert (first + rest)[1..] == first[1..] + rest;
      DualKVStack(first[1..], layer, rest, first[0].ForwardDualKV(x, cu, prefixLen), cu, prefixLen);
    }
  }

  lemma {:induction false} PrefixGrouperStack<H, Q, K, V, O>(
    first: seq<Layer<H, Q, K, V, O>>, layer: Layer<H, Q, K, V, O>, rest: seq<Layer<H, Q, K, V, O>>,
    rows: seq<seq<H>>, prefixLen: nat)
    requires CommonPrefix(rows, prefixLen)
    ensures StackPrefixGrouper([layer], rows, prefixLen) == layer.ForwardPrefixGrouper(rows, prefixLen)
    ensures CommonPrefix(StackPrefixGrouper(first, rows, prefixLen), prefixLen)
    ensures StackPrefixGrouper(first + rest, rows, prefixLen)
         == StackPrefixGrouper(rest, StackPrefixGrouper(first, rows, prefixLen), prefixLen)
    decreases |first|
  {
    SolosKeepPrefix(layer, rows, prefixLen);
    assert StackPrefixGrouper([layer][1..], layer.Solos(rows), prefixLen) == layer.Solos(rows);
    if first == [] {
      assert first + rest == rest;
    } else {
      assert (first + rest)[1..] == first[1..] + rest;
      SolosKeepPrefix(first[0], rows, prefixLen);
      PrefixGrouperStack(first[1..], layer, rest, first[0].Solos(rows), prefixLen);
    }
  }
}
