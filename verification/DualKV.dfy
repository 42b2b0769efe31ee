/**
  The DualKV attention problem: keys and values are split into a context shared by all sequences and a
  decoded part of one sequence, tiled and padded independently.

  A `Launch` value is one sequence and one head. Physical key slots are numbered tile by tile, context
  tiles first; a slot is either a logical key or padding ("ghost") at the end of the last tile of its part.
 */
module DualKV {
  import opened ExpLogs
  import opened LinearAlgebra
  import opened Attention
  import opened CxxArithmetic

  datatype Launch = Launch(
    el: ExpLog,
    seqlenQ: nat, contextLen: nat, decodedLen: nat, headdim: nat,
    scale: real,
    q: Tensor, kContext: Tensor, vContext: Tensor, kDecoded: Tensor, vDecoded: Tensor,
    isCausal: bool,
    blockM: nat, blockN: nat)
  {
    ghost predicate Valid() {
      && el.Valid()
      && scale > 0.0
      && blockM > 0 && blockN > 0
    }

    function SeqlenK(): nat {
      contextLen + decodedLen
    }

    /** Keys (or values) in logical order: the context, then the decoded part. */
    function Joined(context: Tensor, decoded: Tensor): Tensor {
      (j, c) => if j < contextLen then context(j, c) else decoded(j - contextLen, c)
    }

    function Keys(): Tensor {
      Joined(kContext, kDecoded)
    }

    function Values(): Tensor {
      Joined(vContext, vDecoded)
    }

    /** The attention problem on the joined keys; the causal mask is aligned to the bottom right. */
    function Reference(): Problem {
      Problem(el, seqlenQ, SeqlenK(), headdim, scale, q, Keys(), Values(), (i, j) => 0.0,
              (i, j) => isCausal ==> j <= i + SeqlenK() - seqlenQ)
    }

    // ----- Tiles ------------------------------------------------------------------------------------

    function BlocksContext(): int
      requires blockN > 0
    {
      CeilDiv(contextLen, blockN)
    }

    function BlocksDecoded(): int
      requires blockN > 0
    {
      CeilDiv(decodedLen, blockN)
    }

    /** The logical position of the first slot of tile `n`. */
    function KeyPos(n: int): int
      requires blockN > 0
    {
      if n < BlocksContext() then n * blockN else contextLen + (n - BlocksContext()) * blockN
    }

    /** The number of slots of tile `n` that are keys. */
    function ValidK(n: int): int
      requires blockN > 0
    {
      if n < BlocksContext() then Min(blockN, contextLen - n * blockN)
      else Min(blockN, decodedLen - (n - BlocksContext()) * blockN)
    }

    /** A slot that is a key of its part. */
    predicate IsKey(n: int, col: int)
      requires blockN > 0
    {
      0 <= col < ValidK(n)
    }

    /** The row of the context or decoded buffer that a slot is loaded from; padding loads zero. */
    function LoadSlot(context: Tensor, decoded: Tensor, n: int, col: int): Vector
      requires blockN > 0
    {
      c => if !IsKey(n, col) then 0.0
           else if n < BlocksContext() then context(n * blockN + col, c)
           else decoded((n - BlocksContext()) * blockN + col, c)
    }

    /** The score of row `i` against a slot after the causal or bounds mask and the padding mask. */
    function MaskedScore(i: int, n: int, col: int): Ext
      requires blockN > 0
    {
      var limit := if isCausal then Min(SeqlenK(), i + 1 + SeqlenK() - seqlenQ) else SeqlenK();
      if KeyPos(n) + col >= limit then NegInf
      else if ValidK(n) < blockN && col >= ValidK(n) then NegInf
      else Fin(Inner(headdim, Row(q, i), LoadSlot(kContext, kDecoded, n, col)))
    }

    lemma BlockCounts()
      requires blockN > 0
      ensures BlocksContext() >= 0 && BlocksDecoded() >= 0
      ensures contextLen <= BlocksContext() * blockN
      ensures decodedLen <= BlocksDecoded() * blockN
      ensures contextLen == 0 ==> BlocksContext() == 0
      ensures decodedLen == 0 ==> BlocksDecoded() == 0
      ensures contextLen > 0 ==> (BlocksContext() - 1) * blockN < contextLen
      ensures decodedLen > 0 ==> (BlocksDecoded() - 1) * blockN < decodedLen
    {
      CeilDivBounds(contextLen, blockN);
      CeilDivBounds(decodedLen, blockN);
    }

    /** Every slot that is a key sits at its logical position, within the part it belongs to. */
    lemma KeySlot(n: int, col: int)
      requires blockN > 0 && 0 <= n && IsKey(n, col)
      ensures 0 <= KeyPos(n) + col < SeqlenK()
      ensures n < BlocksContext() ==> KeyPos(n) + col == n * blockN + col < contextLen
      ensures n >= BlocksContext() ==> KeyPos(n) + col - contextLen == (n - BlocksContext()) * blockN + col >= 0
    {
      hide CeilDiv;
      ProductOrder(0, n, blockN);
      ProductOrder(0, n - BlocksContext(), blockN);
    }

    /** A key slot loads the row of its logical key. */
    lemma SlotLoads(context: Tensor, decoded: Tensor, n: int, col: int)
      requires blockN > 0 && 0 <= n && IsKey(n, col)
      ensures forall c :: LoadSlot(context, decoded, n, col)(c) == Joined(context, decoded)(KeyPos(n) + col, c)
    {
      KeySlot(n, col);
      hide ValidK, KeyPos;
    }

    lemma SlotDot(i: int, n: int, col: int)
      requires blockN > 0 && 0 <= n && IsKey(n, col)
      ensures Inner(headdim, Row(q, i), LoadSlot(kContext, kDecoded, n, col))
           == Inner(headdim, Row(q, i), Row(Keys(), KeyPos(n) + col))
    {
      SlotLoads(kContext, kDecoded, n, col);
      InnerCongruence(headdim, Row(q, i), LoadSlot(kContext, kDecoded, n, col), Row(q, i),
          Row(Keys(), KeyPos(n) + col));
    }

    lemma ReferenceWeight(i: int, j: int, dot: real)
      requires 0 <= j < SeqlenK() && dot == Inner(headdim, Row(q, i), Row(Keys(), j))
      ensures Reference().Weight(i, j)
           == if j < (if isCausal then Min(SeqlenK(), i + 1 + SeqlenK() - seqlenQ) else SeqlenK())
              then el.exp(dot * scale) else 0.0
    {
      hide Inner;
      var a := Reference();
      assert a.bias(i, j) == 0.0;
      assert a.Score(i, j) == dot * scale;
      assert a.allowed(i, j) <==> (isCausal ==> j <= i + SeqlenK() - seqlenQ);
    }

    /** A visible slot carries the reference weight of its logical key; a padding slot carries none. */
    lemma SlotWeight(i: int, n: int, col: int)
      requires Valid() && 0 <= n && 0 <= col < blockN
      ensures ExpExt(el, ScaleExt(MaskedScore(i, n, col), scale))
           == if IsKey(n, col) then Reference().Weight(i, KeyPos(n) + col) else 0.0
    {
      hide Inner, KeyPos, Reference, LoadSlot;
      if IsKey(n, col) {
        KeySlot(n, col);
        SlotDot(i, n, col);
        var dot := Inner(headdim, Row(q, i), Row(Keys(), KeyPos(n) + col));
        ReferenceWeight(i, KeyPos(n) + col, dot);
        var limit := if isCausal then Min(SeqlenK(), i + 1 + SeqlenK() - seqlenQ) else SeqlenK();
        assert MaskedScore(i, n, col) == if KeyPos(n) + col >= limit then NegInf else Fin(dot);
        var x := dot * scale;
        assert ScaleExt(Fin(dot), scale) == Fin(x);
        assert ExpExt(el, Fin(x)) == el.exp(x);
        assert Reference().Weight(i, KeyPos(n) + col) == if KeyPos(n) + col < limit then el.exp(x) else 0.0;
      }
    }
  }
}
