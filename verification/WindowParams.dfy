/**
  How the host code rewrites a caller's causal flag, window and chunk into what the kernels receive.
  For variable-length batches the rewriting sees only the maximal lengths, so it is proved to keep the
  mask of every sequence that is no longer.
 */
module WindowParams {
  import opened CxxArithmetic
  import opened BlockRanges

  /** What a caller passes; a negative window is infinite, a chunk that is not positive is off. */
  datatype Request = Request(
    maxSeqlenQ: int, maxSeqlenK: int,
    isCausal: bool, windowLeft: int, windowRight: int, chunk: int,
    headSize: int, pagedKV: bool)
  {
    /** The documented meaning, for a sequence with these lengths. */
    predicate Allows(seqlenQ: int, seqlenK: int, query: int, key: int) {
      var diagonal := query + seqlenK - seqlenQ;
      && 0 <= key < seqlenK
      && (isCausal ==> key <= diagonal)
      && (windowLeft >= 0 ==> diagonal - windowLeft <= key)
      && (windowRight >= 0 ==> key <= diagonal + windowRight)
      && (chunk > 0 ==> RoundDown(chunk, diagonal) <= key < RoundDown(chunk, diagonal) + chunk)
    }
  }

  /** The fields of the launch parameters that describe the mask. */
  datatype Mask = Mask(isCausal: bool, isLocal: bool, windowLeft: int, windowRight: int, chunk: int)
  {
    function Block(seqlenQ: int, seqlenK: int, blockM: int, blockN: int, packGQA: bool, qheadPerKhead: int): BlockMN {
      BlockMN(blockM, blockN, isCausal, isLocal, packGQA, seqlenQ, seqlenK, windowLeft, windowRight, chunk,
          qheadPerKhead)
    }

    /** What the kernels' element-wise mask keeps; block sizes play no part in it. */
    predicate Allows(seqlenQ: int, seqlenK: int, query: int, key: int) {
      Block(seqlenQ, seqlenK, 1, 1, false, 1).Allowed(query, key, 0)
    }
  }

  class LaunchParams {
    var isCausal: bool
    var isLocal: bool
    var windowLeft: int
    var windowRight: int
    var chunk: int

    constructor ()
    {
      isCausal, isLocal, windowLeft, windowRight, chunk := false, false, 0, 0, 0;
    }

    function Value(): Mask
      reads this
    {
      Mask(isCausal, isLocal, windowLeft, windowRight, chunk)
    }

    /** The part of `set_params_fprop` that fills the mask. */
    method SetParamsFprop(seqlenQ: int, seqlenK: int, windowSizeLeft: int, windowSizeRight: int, attentionChunk: int)
      modifies this
      ensures Value() == StoredMask(seqlenQ, seqlenK, windowSizeLeft, windowSizeRight, attentionChunk)
    {
      var left, right := windowSizeLeft, windowSizeRight;
      isCausal := left < 0 && right == 0 && attentionChunk == 0;
      isLocal := (left >= 0 || right >= 0 || attentionChunk >= 1) && !isCausal;
      if left < 0 { left := seqlenK - 1; }
      if right < 0 { right := seqlenQ - 1; }
      if attentionChunk > 0 {
        left := Min(left, attentionChunk - 1);
        right := Min(right, attentionChunk - 1);
      }
      windowLeft := left;
      windowRight := right;
      chunk := attentionChunk;
    }

    /** `mha_fwd` */
    method MhaFwd(a: Request)
      modifies this
      ensures Value() == ForwardMask(a)
      ensures Faithful(a, Value())
    {
      var left, right, causal := a.windowLeft, a.windowRight, a.isCausal;
      if left >= a.maxSeqlenK - 1 { left := -1; }
      if right >= a.maxSeqlenQ - 1 { right := -1; }
      if a.maxSeqlenQ == 1 && left == -1 && right == -1 && a.chunk == 0 {
        if (a.headSize <= 64 || a.headSize > 128) || !a.pagedKV {
          causal := false;
        }
      }
      if causal { right := 0; }
      SetParamsFprop(a.maxSeqlenQ, a.maxSeqlenK, left, right, a.chunk);
      ForwardIsFaithful(a);
    }

    /**
      `mha_bwd`, which knows no chunks. It returns the `is_causal` and `is_local` from which it picks block
      sizes; they are the ones stored for the kernel.
     */
    method MhaBwd(a: Request) returns (causal: bool, local: bool)
      modifies this
      ensures causal == isCausal && local == isLocal
      ensures Value() == BackwardMask(a)
      ensures Faithful(a.(chunk := 0), Value())
    {
      var left, right := a.windowLeft, a.windowRight;
      if left >= a.maxSeqlenK - 1 { left := -1; }
      if right >= a.maxSeqlenQ - 1 { right := -1; }
      if a.isCausal { right := 0; }
      causal := left < 0 && right == 0;
      local := (left >= 0 || right >= 0) && !causal;
      SetParamsFprop(a.maxSeqlenQ, a.maxSeqlenK, left, right, 0);
      BackwardIsFaithful(a);
    }
  }

  /** `mha_fwd_get_scheduler_metadata`: the copy that plans the launch stores what `mha_fwd` will store. */
  method SchedulerMetadata(a: Request) returns (params: LaunchParams)
    ensures fresh(params) && params.Value() == ForwardMask(a)
  {
    params := new LaunchParams();
    var left, right, causal := a.windowLeft, a.windowRight, a.isCausal;
    if left >= a.maxSeqlenK - 1 { left := -1; }
    if right >= a.maxSeqlenQ - 1 { right := -1; }
    if a.maxSeqlenQ == 1 && left == -1 && right == -1 && a.chunk == 0 {
      if (a.headSize <= 64 || a.headSize > 128) || !a.pagedKV {
        causal := false;
      }
    }
    if causal { right := 0; }
    params.isCausal := left < 0 && right == 0 && a.chunk == 0;
    params.isLocal := (left >= 0 || right >= 0 || a.chunk >= 1) && !params.isCausal;
    if left < 0 { left := a.maxSeqlenK - 1; }
    if right < 0 { right := a.maxSeqlenQ - 1; }
    if a.chunk > 0 {
      left := Min(left, a.chunk - 1);
      right := Min(right, a.chunk - 1);
    }
    params.windowLeft := left;
    params.windowRight := right;
    params.chunk := a.chunk;
  }

  // ----- Specification ----------------------------------------------------------------------------------

  function Finite(window: int, infinite: int, chunk: int): int {
    var w := if window < 0 then infinite else window;
    if chunk > 0 then Min(w, chunk - 1) else w
  }

  function StoredMask(seqlenQ: int, seqlenK: int, left: int, right: int, chunk: int): Mask {
    var causal := left < 0 && right == 0 && chunk == 0;
    Mask(causal, !causal && (left >= 0 || right >= 0 || chunk > 0),
         Finite(left, seqlenK - 1, chunk), Finite(right, seqlenQ - 1, chunk), chunk)
  }

  /** A window that reaches across the longest sequence is infinite. */
  function Widened(window: int, reach: int): int {
    if window >= reach then -1 else window
  }

  /** With one query and nothing else to mask, causal attention is full attention. */
  predicate CausalDropped(a: Request) {
    && a.maxSeqlenQ == 1 && a.chunk == 0
    && Widened(a.windowLeft, a.maxSeqlenK - 1) == -1 && Widened(a.windowRight, a.maxSeqlenQ - 1) == -1
    && (a.headSize <= 64 || a.headSize > 128 || !a.pagedKV)
  }

  function ForwardMask(a: Request): Mask {
    StoredMask(a.maxSeqlenQ, a.maxSeqlenK, Widened(a.windowLeft, a.maxSeqlenK - 1),
               if a.isCausal && !CausalDropped(a) then 0 else Widened(a.windowRight, a.maxSeqlenQ - 1), a.chunk)
  }

  function BackwardMask(a: Request): Mask {
    StoredMask(a.maxSeqlenQ, a.maxSeqlenK, Widened(a.windowLeft, a.maxSeqlenK - 1),
               if a.isCausal then 0 else Widened(a.windowRight, a.maxSeqlenQ - 1), 0)
  }

  /** The stored mask denotes the requested pairs, for every sequence no longer than the maxima. */
  ghost predicate Faithful(a: Request, m: Mask) {
    forall seqlenQ, seqlenK, query, key | SequenceOf(a, seqlenQ, seqlenK) && 0 <= query < seqlenQ ::
      m.Allows(seqlenQ, seqlenK, query, key) <==> a.Allows(seqlenQ, seqlenK, query, key)
  }

  predicate SequenceOf(a: Request, seqlenQ: int, seqlenK: int) {
    0 <= seqlenQ <= a.maxSeqlenQ && 0 <= seqlenK <= a.maxSeqlenK
  }

  /** Storing the mask keeps its meaning: the finite stand-ins for infinite windows are wide enough. */
  lemma StoredAllows(a: Request, left: int, right: int, seqlenQ: int, seqlenK: int, query: int, key: int)
    requires SequenceOf(a, seqlenQ, seqlenK) && 0 <= query < seqlenQ
    ensures StoredMask(a.maxSeqlenQ, a.maxSeqlenK, left, right, a.chunk).Allows(seqlenQ, seqlenK, query, key)
       <==> a.(isCausal := false, windowLeft := left, windowRight := right).Allows(seqlenQ, seqlenK, query, key)
  {
    hide RoundDown;
    if a.chunk > 0 {
      var diagonal := query + seqlenK - seqlenQ;
      RoundDownMonotone(a.chunk, diagonal, diagonal);
    }
  }

  lemma ForwardIsFaithful(a: Request)
    ensures Faithful(a, ForwardMask(a))
  {
    hide Mask.Allows;
    forall seqlenQ, seqlenK, query, key | SequenceOf(a, seqlenQ, seqlenK) && 0 <= query < seqlenQ
      ensures ForwardMask(a).Allows(seqlenQ, seqlenK, query, key) <==> a.Allows(seqlenQ, seqlenK, query, key)
    {
      hide RoundDown;
      StoredAllows(a, Widened(a.windowLeft, a.maxSeqlenK - 1),
                   if a.isCausal && !CausalDropped(a) then 0 else Widened(a.windowRight, a.maxSeqlenQ - 1),
                   seqlenQ, seqlenK, query, key);
    }
  }

  lemma BackwardIsFaithful(a: Request)
    ensures Faithful(a.(chunk := 0), BackwardMask(a))
  {
    hide Mask.Allows;
    var b := a.(chunk := 0);
    forall seqlenQ, seqlenK, query, key | SequenceOf(b, seqlenQ, seqlenK) && 0 <= query < seqlenQ
      ensures BackwardMask(a).Allows(seqlenQ, seqlenK, query, key) <==> b.Allows(seqlenQ, seqlenK, query, key)
    {
      hide RoundDown;
      StoredAllows(b, Widened(a.windowLeft, a.maxSeqlenK - 1),
                   if a.isCausal then 0 else Widened(a.windowRight, a.maxSeqlenQ - 1),
                   seqlenQ, seqlenK, query, key);
    }
  }

  // ----- The flags ------------------------------------------------------------------------------------------

  /**
    The forward stores the causal flag exactly when nothing limits the left and no chunk applies, and either
    the caller's causal flag was kept or the right window is zero for more than one query; it stores the local
    flag when something else limits a side.
   */
  lemma ForwardFlags(a: Request)
    ensures ForwardMask(a).isCausal <==>
              && a.chunk == 0 && (a.windowLeft < 0 || a.windowLeft >= a.maxSeqlenK - 1)
              && ((a.isCausal && !CausalDropped(a)) || (a.windowRight == 0 && a.maxSeqlenQ > 1))
    ensures ForwardMask(a).isLocal <==>
              && !ForwardMask(a).isCausal
              && (a.chunk > 0 || 0 <= a.windowLeft < a.maxSeqlenK - 1
                  || (a.isCausal && !CausalDropped(a)) || 0 <= a.windowRight < a.maxSeqlenQ - 1)
  {
  }

  /** So does the backward, which drops no causal flag and knows no chunk. */
  lemma BackwardFlags(a: Request)
    ensures BackwardMask(a).isCausal <==>
              && (a.windowLeft < 0 || a.windowLeft >= a.maxSeqlenK - 1)
              && (a.isCausal || (a.windowRight == 0 && a.maxSeqlenQ > 1))
    ensures BackwardMask(a).isLocal <==>
              && !BackwardMask(a).isCausal
              && (0 <= a.windowLeft < a.maxSeqlenK - 1 || a.isCausal || 0 <= a.windowRight < a.maxSeqlenQ - 1)
  {
  }

  /** A launch with the causal flag is asked for exactly the keys up to the diagonal, one without flags for all. */
  lemma FlagsMeanTheMask(a: Request, seqlenQ: int, seqlenK: int, query: int, key: int)
    requires SequenceOf(a, seqlenQ, seqlenK) && 0 <= query < seqlenQ && 0 <= key < seqlenK
    ensures ForwardMask(a).isCausal ==> (a.Allows(seqlenQ, seqlenK, query, key) <==> key <= query + seqlenK - seqlenQ)
    ensures !ForwardMask(a).isCausal && !ForwardMask(a).isLocal ==> a.Allows(seqlenQ, seqlenK, query, key)
    ensures var b := a.(chunk := 0);
            && (BackwardMask(a).isCausal ==>
                  (b.Allows(seqlenQ, seqlenK, query, key) <==> key <= query + seqlenK - seqlenQ))
            && (!BackwardMask(a).isCausal && !BackwardMask(a).isLocal ==> b.Allows(seqlenQ, seqlenK, query, key))
  {
    ForwardIsFaithful(a);
    BackwardIsFaithful(a);
    assert SequenceOf(a.(chunk := 0), seqlenQ, seqlenK);
    assert ForwardMask(a).Allows(seqlenQ, seqlenK, query, key) <==> a.Allows(seqlenQ, seqlenK, query, key);
    assert BackwardMask(a).Allows(seqlenQ, seqlenK, query, key)
      <==> a.(chunk := 0).Allows(seqlenQ, seqlenK, query, key);
    hide Request.Allows, Faithful, StoredMask, RoundDown;
  }

  /** Stored windows reach no further than the longest sequence and the chunk; shorter ones are kept. */
  lemma StoredWindows(a: Request)
    requires a.maxSeqlenQ >= 1 && a.maxSeqlenK >= 1
    ensures var m := ForwardMask(a);
            && m.chunk == a.chunk
            && 0 <= m.windowLeft <= a.maxSeqlenK - 1 && 0 <= m.windowRight <= a.maxSeqlenQ - 1
            && (a.chunk > 0 ==> m.windowLeft <= a.chunk - 1 && m.windowRight <= a.chunk - 1)
            && (0 <= a.windowLeft < a.maxSeqlenK && (a.chunk > 0 ==> a.windowLeft < a.chunk) ==>
                  m.windowLeft == a.windowLeft)
            && (0 <= a.windowRight < a.maxSeqlenQ && (a.chunk > 0 ==> a.windowRight < a.chunk) &&
                !(a.isCausal && !CausalDropped(a)) ==>
                  m.windowRight == a.windowRight)
            && (a.windowLeft < 0 && a.chunk <= 0 ==> m.windowLeft == a.maxSeqlenK - 1)
            && (a.windowRight < 0 && !(a.isCausal && !CausalDropped(a)) && a.chunk <= 0 ==>
                  m.windowRight == a.maxSeqlenQ - 1)
  {
  }

  // ----- From a request to the visited blocks -------------------------------------------------------------

  /** Every pair a forward request allows is visited, whatever the block sizes and head packing. */
  lemma ForwardVisitsRequest(a: Request, seqlenQ: int, seqlenK: int, blockM: int, blockN: int, packGQA: bool,
      qheadPerKhead: int, mBlock: int, index: int, key: int)
    requires SequenceOf(a, seqlenQ, seqlenK) && blockM > 0 && blockN > 0 && qheadPerKhead > 0 && 0 <= mBlock
    ensures var t := ForwardMask(a).Block(seqlenQ, seqlenK, blockM, blockN, packGQA, qheadPerKhead);
            t.Valid() && (t.InQueryBlock(mBlock, index) && a.Allows(seqlenQ, seqlenK, t.QueryOf(index), key)
                          ==> t.UnsplitNBlocks(mBlock).Contains(key / blockN))
  {
    hide BlockMN.UnsplitNBlocks, Request.Allows, BlockMN.QueryOf, RoundDown;
    var t := ForwardMask(a).Block(seqlenQ, seqlenK, blockM, blockN, packGQA, qheadPerKhead);
    ForwardIsFaithful(a);
    t.QueryMajorCovers(mBlock);
    if t.InQueryBlock(mBlock, index) && a.Allows(seqlenQ, seqlenK, t.QueryOf(index), key) {
      assert ForwardMask(a).Allows(seqlenQ, seqlenK, t.QueryOf(index), key);
      assert t.Allowed(t.QueryOf(index), key, 0);
    }
  }

  /** Every pair a backward request allows is visited by the key block that holds the key. */
  lemma BackwardVisitsRequest(a: Request, seqlenQ: int, seqlenK: int, blockM: int, blockN: int, nBlock: int, query: int,
      key: int)
    requires SequenceOf(a, seqlenQ, seqlenK) && blockM > 0 && blockN > 0
    ensures var t := BackwardMask(a).Block(seqlenQ, seqlenK, blockM, blockN, false, 1);
            && t.Valid()
            && (0 <= query < seqlenQ && t.InKeyBlock(nBlock, key)
                && a.(chunk := 0).Allows(seqlenQ, seqlenK, query, key)
                ==> t.MBlocks(nBlock, 0).Contains(query / blockM))
  {
    hide BlockMN.MBlocks, Request.Allows, RoundDown;
    var t := BackwardMask(a).Block(seqlenQ, seqlenK, blockM, blockN, false, 1);
    BackwardIsFaithful(a);
    t.KeyMajorCovers(nBlock, 0);
    if 0 <= query < seqlenQ && t.InKeyBlock(nBlock, key) && a.(chunk := 0).Allows(seqlenQ, seqlenK, query, key) {
      assert SequenceOf(a.(chunk := 0), seqlenQ, seqlenK);
      assert BackwardMask(a).Allows(seqlenQ, seqlenK, query, key);
      assert t.Allowed(query, key, 0);
    }
  }
}
