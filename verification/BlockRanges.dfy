/**
  Which tiles a CTA of the Hopper kernels visits: ranges of key blocks for one query block, ranges of
  query blocks for one key block, the part of a range without masking, and the division of a range
  among splits. The ranges are proved against the element-wise mask.
 */
module BlockRanges {
  import opened CxxArithmetic

  datatype Range = Range(min: int, max: int)
  {
    predicate Contains(n: int) {
      min <= n < max
    }
  }

  /** Template parameters, sequence lengths and window of one CTA. `chunk` is inactive unless positive. */
  datatype BlockMN = BlockMN(
    blockM: int, blockN: int,
    isCausal: bool, isLocal: bool, packGQA: bool,
    seqlenQ: int, seqlenK: int,
    windowLeft: int, windowRight: int,
    chunk: int, qheadPerKhead: int)
  {
    predicate Valid() {
      blockM > 0 && blockN > 0 && qheadPerKhead > 0 && seqlenQ >= 0 && seqlenK >= 0 && !(isCausal && isLocal)
    }

    predicate Chunked() {
      isLocal && chunk > 0
    }

    /** The diagonal is aligned to the bottom right corner. */
    function Offset(): int {
      seqlenK - seqlenQ
    }

    // ----- The mask -----------------------------------------------------------------------------------

    /** The query of an index into a query block; packed heads share their query. */
    function QueryOf(index: int): int
      requires Valid()
    {
      if packGQA then TruncDiv(index, qheadPerKhead) else index
    }

    predicate RightOfWindow(query: int, key: int) {
      || (isCausal && key >= query + 1 + Offset())
      || (isLocal && key >= query + 1 + Offset() + windowRight)
      || (Chunked() && key >= RoundDown(chunk, query + Offset()) + chunk)
    }

    predicate LeftOfWindow(query: int, key: int) {
      || (isLocal && key < query + Offset() - windowLeft)
      || (Chunked() && key < RoundDown(chunk, query + Offset()))
    }

    /**
      What the mask keeps. The first `sink` keys ignore the left edge of a local window; the forward mask
      counts them from the thread's own first column (flash-attention/hopper/mask.h:106), which is the same
      where there are none.
     */
    predicate Allowed(query: int, key: int, sink: int) {
      0 <= key < seqlenK && !RightOfWindow(query, key) && (LeftOfWindow(query, key) ==> key < sink)
    }

    /** Without sinks: keys up to the diagonal, or within the window around it and the query's chunk. */
    lemma AllowedKeys(query: int, key: int)
      ensures var diagonal := query + seqlenK - seqlenQ;
              Allowed(query, key, 0) <==>
                && 0 <= key < seqlenK
                && (isCausal ==> key <= diagonal)
                && (isLocal ==> diagonal - windowLeft <= key <= diagonal + windowRight)
                && (isLocal && chunk > 0 ==>
                      RoundDown(chunk, diagonal) <= key < RoundDown(chunk, diagonal) + chunk)
    {
    }

    /** An index of query block `mBlock` that stands for an actual query. */
    predicate InQueryBlock(mBlock: int, index: int)
      requires Valid()
    {
      mBlock * blockM <= index < (mBlock + 1) * blockM && 0 <= QueryOf(index) < seqlenQ
    }

    predicate InKeyBlock(nBlock: int, key: int) {
      nBlock * blockN <= key < (nBlock + 1) * blockN
    }

    // ----- Key blocks of a query block ----------------------------------------------------------------

    function QueryEnd(mBlock: int): int
      requires Valid()
    {
      var mIdxMax := (mBlock + 1) * blockM;
      if packGQA then TruncDiv(mIdxMax - 1, qheadPerKhead) + 1 else mIdxMax
    }

    function QueryStart(mBlock: int): int
      requires Valid()
    {
      QueryOf(mBlock * blockM)
    }

    /** `get_n_block_min_max` without splits. */
    function UnsplitNBlocks(mBlock: int): Range
      requires Valid()
    {
      var nBlockMax :=
        if isCausal || isLocal then
          var nIdx := QueryEnd(mBlock) + seqlenK - seqlenQ;
          var nIdxRight := if isLocal then nIdx + windowRight else nIdx;
          var nIdxRight := if Chunked() then Min(nIdxRight, RoundUp(chunk, nIdx)) else nIdxRight;
          Min(CeilDiv(seqlenK, blockN), CeilDiv(nIdxRight, blockN))
        else CeilDiv(seqlenK, blockN);
      var nBlockMin :=
        if isLocal then
          var nIdx := QueryStart(mBlock) + seqlenK - seqlenQ;
          var nIdxLeft := nIdx - windowLeft;
          var nIdxLeft := if Chunked() then Max(nIdxLeft, RoundDown(chunk, nIdx)) else nIdxLeft;
          Max(0, TruncDiv(nIdxLeft, blockN))
        else 0;
      Range(nBlockMin, nBlockMax)
    }

    /** The queries of a block lie between its first and its last. */
    lemma QueryBounds(mBlock: int, index: int)
      requires Valid() && 0 <= mBlock && mBlock * blockM <= index < (mBlock + 1) * blockM
      ensures QueryStart(mBlock) <= QueryOf(index) < QueryEnd(mBlock)
    {
      ProductOrder(0, mBlock, blockM);
      if packGQA {
        DivMonotone(mBlock * blockM, index, qheadPerKhead);
        DivMonotone(index, (mBlock + 1) * blockM - 1, qheadPerKhead);
      }
    }

    /** A key allowed through the window lies in a block of the visited range. */
    lemma VisitedBlock(mBlock: int, index: int, key: int, nBlock: int)
      requires Valid() && 0 <= mBlock && InQueryBlock(mBlock, index) && InKeyBlock(nBlock, key)
      requires Allowed(QueryOf(index), key, 0)
      ensures UnsplitNBlocks(mBlock).Contains(nBlock)
    {
      hide TruncDiv, CeilDiv, RoundDown, RoundUp, QueryOf, QueryStart, QueryEnd;
      QueryBounds(mBlock, index);
      BlockOfKey(nBlock, key);
      var query := QueryOf(index);
      if Chunked() {
        RoundDownMonotone(chunk, QueryStart(mBlock) + Offset(), query + Offset());
        RoundDownMonotone(chunk, query + Offset(), QueryEnd(mBlock) + Offset());
      }
      BelowCeil(seqlenK, nBlock, key);
      if isCausal || isLocal {
        var nIdx := QueryEnd(mBlock) + seqlenK - seqlenQ;
        var right := if isLocal then nIdx + windowRight else nIdx;
        var right' := if Chunked() then Min(right, RoundUp(chunk, nIdx)) else right;
        BelowCeil(right', nBlock, key);
      }
      if isLocal {
        var nIdx := QueryStart(mBlock) + seqlenK - seqlenQ;
        var left := if Chunked() then Max(nIdx - windowLeft, RoundDown(chunk, nIdx)) else nIdx - windowLeft;
        AboveFloor(left, nBlock, key);
      }
    }

    lemma BlockOfKey(nBlock: int, key: int)
      requires blockN > 0 && key >= 0 && InKeyBlock(nBlock, key)
      ensures nBlock >= 0
    {
      ProductOrder(nBlock + 1, 0, blockN);
    }

    /** Every key position below `limit` lies in a block below the rounded-up quotient. */
    lemma BelowCeil(limit: int, nBlock: int, key: int)
      requires blockN > 0 && key < limit && InKeyBlock(nBlock, key)
      ensures nBlock < CeilDiv(limit, blockN)
    {
      hide CeilDiv;
      CeilDivBounds(limit, blockN);
      ProductOrder(CeilDiv(limit, blockN), nBlock, blockN);
    }

    /** Every key position from `limit` on lies in a block from the truncated quotient on, or at zero. */
    lemma AboveFloor(limit: int, nBlock: int, key: int)
      requires blockN > 0 && 0 <= key && limit <= key && InKeyBlock(nBlock, key)
      ensures Max(0, TruncDiv(limit, blockN)) <= nBlock
    {
      hide TruncDiv;
      BlockOfKey(nBlock, key);
      TruncDivBounds(limit, blockN);
      ProductOrder(nBlock + 1, TruncDiv(limit, blockN), blockN);
    }

    /**
      The query-major walk covers the mask: for causal, local, chunked and packed attention, every allowed
      pair is in a visited block, although negative offsets are divided toward zero.
     */
    lemma QueryMajorCovers(mBlock: int)
      requires Valid() && 0 <= mBlock
      ensures forall index, key | InQueryBlock(mBlock, index) && Allowed(QueryOf(index), key, 0) ::
                UnsplitNBlocks(mBlock).Contains(key / blockN)
    {
      hide Allowed, UnsplitNBlocks, QueryOf;
      forall index, key | InQueryBlock(mBlock, index) && Allowed(QueryOf(index), key, 0)
        ensures UnsplitNBlocks(mBlock).Contains(key / blockN)
      {
        AllowedIsKey(QueryOf(index), key, 0);
        DivBounds(key, blockN);
        VisitedBlock(mBlock, index, key, key / blockN);
      }
    }

    lemma AllowedIsKey(query: int, key: int, sink: int)
      requires Allowed(query, key, sink)
      ensures 0 <= key < seqlenK
    {
    }

    /** Where the window of the block's first query begins. */
    function LeftEdge(mBlock: int): int
      requires Valid()
    {
      var left := QueryStart(mBlock) + Offset() - windowLeft;
      if Chunked() then Max(left, RoundDown(chunk, QueryStart(mBlock) + Offset())) else left
    }

    /** Where the keys end for the block's last query. */
    function RightEdge(mBlock: int): int
      requires Valid()
    {
      var nIdx := QueryEnd(mBlock) + Offset();
      var right := if isLocal then nIdx + windowRight else nIdx;
      var right := if Chunked() then Min(right, RoundUp(chunk, nIdx)) else right;
      if isCausal || isLocal then Min(seqlenK, right) else seqlenK
    }

    /** The last visited block holds the last key that the block's last query may see to the right. */
    lemma LastVisibleKey(mBlock: int) returns (key: int)
      requires Valid() && 0 <= mBlock && UnsplitNBlocks(mBlock).max > 0
      ensures 0 <= key < seqlenK && InKeyBlock(UnsplitNBlocks(mBlock).max - 1, key)
      ensures !RightOfWindow(QueryEnd(mBlock) - 1, key)
      ensures key == RightEdge(mBlock) - 1
    {
      hide TruncDiv, CeilDiv, RoundDown, RoundUp, QueryOf, QueryStart, QueryEnd;
      var nIdx := QueryEnd(mBlock) + seqlenK - seqlenQ;
      var right := if isLocal then nIdx + windowRight else nIdx;
      right := if Chunked() then Min(right, RoundUp(chunk, nIdx)) else right;
      if Chunked() {
        RoundDownMonotone(chunk, nIdx - 1, nIdx);
      }
      var limit := RightEdge(mBlock);
      assert UnsplitNBlocks(mBlock).max == CeilDiv(limit, blockN) by { CeilOfMin(seqlenK, right, blockN); }
      CeilDivBounds(limit, blockN);
      key := limit - 1;
      ProductOrder(0, CeilDiv(limit, blockN) - 1, blockN);
    }

    /** And the first block holds the first key that the first query may see to the left. */
    lemma FirstVisibleKey(mBlock: int) returns (key: int)
      requires Valid() && 0 <= mBlock
      ensures 0 <= key && InKeyBlock(UnsplitNBlocks(mBlock).min, key) && !LeftOfWindow(QueryStart(mBlock), key)
      ensures key == if isLocal then Max(0, LeftEdge(mBlock)) else 0
    {
      hide TruncDiv, CeilDiv, RoundDown, RoundUp, QueryOf, QueryStart, QueryEnd;
      var left := LeftEdge(mBlock);
      key := if isLocal then Max(0, left) else 0;
      TruncDivBounds(left, blockN);
    }

    /** Every query from the first to the last of a block has an index in it. */
    lemma IndexOf(mBlock: int, query: int) returns (index: int)
      requires Valid() && 0 <= mBlock && QueryStart(mBlock) <= query < QueryEnd(mBlock) && 0 <= query < seqlenQ
      ensures InQueryBlock(mBlock, index) && QueryOf(index) == query
    {
      ProductOrder(0, mBlock, blockM);
      var lo, hi := mBlock * blockM, (mBlock + 1) * blockM;
      assert hi == lo + blockM;
      index := if packGQA then MultipleIn(lo, hi, qheadPerKhead, query) else query;
    }

    /**
      The range is no larger than needed: as far as the block holds queries, its last key block holds a pair
      that the mask keeps.
     */
    lemma LastBlockNeeded(mBlock: int) returns (index: int, key: int)
      requires Valid() && 0 <= mBlock && QueryStart(mBlock) < seqlenQ && UnsplitNBlocks(mBlock).max > 0
      requires isLocal ==> windowLeft >= 0 && windowRight >= 0
      ensures InQueryBlock(mBlock, index) && InKeyBlock(UnsplitNBlocks(mBlock).max - 1, key)
      ensures Allowed(QueryOf(index), key, 0)
    {
      QueriesFrom(mBlock);
      hide TruncDiv, CeilDiv, RoundDown, RoundUp, QueryOf, QueryStart, QueryEnd, InQueryBlock, InKeyBlock;
      key := LastVisibleKey(mBlock);
      var query := Min(QueryEnd(mBlock), seqlenQ) - 1;
      if Chunked() {
        RoundDownMonotone(chunk, query + Offset(), QueryEnd(mBlock) + Offset());
        RoundDownMonotone(chunk, query + Offset(), query + Offset() + 1);
      }
      hide UnsplitNBlocks;
      index := IndexOf(mBlock, query);
    }

    /** And so does its first key block. */
    lemma FirstBlockNeeded(mBlock: int) returns (index: int, key: int)
      requires Valid() && 0 <= mBlock && QueryStart(mBlock) < seqlenQ && UnsplitNBlocks(mBlock).max > 0
      requires isLocal ==> windowLeft >= 0 && windowRight >= 0
      ensures InQueryBlock(mBlock, index) && InKeyBlock(UnsplitNBlocks(mBlock).min, key)
      ensures Allowed(QueryOf(index), key, 0)
    {
      QueriesFrom(mBlock);
      hide TruncDiv, CeilDiv, RoundDown, RoundUp, QueryOf, QueryStart, QueryEnd, InQueryBlock, InKeyBlock;
      var end := LastVisibleKey(mBlock);
      key := FirstVisibleKey(mBlock);
      hide UnsplitNBlocks;
      var first, last := QueryStart(mBlock), Min(QueryEnd(mBlock), seqlenQ) - 1;
      var query := if first + Offset() >= 0 then first else if last + Offset() >= 0 then -Offset() else last;
      if Chunked() {
        RoundDownMonotone(chunk, first + Offset(), query + Offset());
        RoundDownMonotone(chunk, query + Offset(), QueryEnd(mBlock) + Offset());
      }
      index := IndexOf(mBlock, query);
    }

    lemma QueriesFrom(mBlock: int)
      requires Valid() && 0 <= mBlock
      ensures 0 <= QueryStart(mBlock) < QueryEnd(mBlock)
    {
      ProductOrder(mBlock, mBlock + 1, blockM);
      ProductOrder(0, mBlock, blockM);
      QueryBounds(mBlock, mBlock * blockM);
      if packGQA {
        DivBounds(mBlock * blockM, qheadPerKhead);
      }
    }

    /**
      The query-major walk knows nothing of sink tokens: keys kept only as sinks are visited exactly when
      the window of the block's first query begins in the first key block, or before it.
     */
    lemma SinksVisitedIff(mBlock: int, sink: int)
      requires Valid() && 0 <= mBlock && isLocal && seqlenK > 0 && windowLeft >= 0 && windowRight >= 0 && sink > 0
      requires 0 <= QueryStart(mBlock) < seqlenQ
      ensures (forall index, key | InQueryBlock(mBlock, index) && Allowed(QueryOf(index), key, sink) ::
                 UnsplitNBlocks(mBlock).Contains(key / blockN))
              <==> LeftEdge(mBlock) < blockN
    {
      StartsAtZeroIff(mBlock);
      if UnsplitNBlocks(mBlock).min == 0 {
        hide TruncDiv, RoundUp, CeilDiv, QueryOf, QueryStart, RoundDown, QueryEnd;
        forall index, key | InQueryBlock(mBlock, index) && Allowed(QueryOf(index), key, sink)
          ensures UnsplitNBlocks(mBlock).Contains(key / blockN)
        {
          SinkBlock(mBlock, index, key, sink);
        }
      } else {
        FirstKeyIsSink(mBlock, sink);
        assert !UnsplitNBlocks(mBlock).Contains(0 / blockN);
      }
    }

    lemma StartsAtZeroIff(mBlock: int)
      requires Valid() && isLocal
      ensures UnsplitNBlocks(mBlock).min == 0 <==> LeftEdge(mBlock) < blockN
    {
      hide TruncDiv, CeilDiv, RoundDown, RoundUp, QueryStart, QueryEnd;
      var left := LeftEdge(mBlock);
      TruncDivBounds(left, blockN);
      if left >= blockN {
        ProductOrder(1, TruncDiv(left, blockN), blockN);
      } else {
        ProductOrder(0, TruncDiv(left, blockN), blockN);
      }
    }

    lemma SinkBlock(mBlock: int, index: int, key: int, sink: int)
      requires Valid() && 0 <= mBlock && isLocal && InQueryBlock(mBlock, index) && Allowed(QueryOf(index), key, sink)
      ensures 0 <= key / blockN < UnsplitNBlocks(mBlock).max
    {
      hide TruncDiv, CeilDiv, RoundDown, RoundUp, QueryOf, QueryStart, QueryEnd;
      QueryBounds(mBlock, index);
      DivBounds(key, blockN);
      var query := QueryOf(index);
      if Chunked() {
        RoundDownMonotone(chunk, query + Offset(), QueryEnd(mBlock) + Offset());
      }
      BelowCeil(seqlenK, key / blockN, key);
      var nIdx := QueryEnd(mBlock) + seqlenK - seqlenQ;
      var right := if Chunked() then Min(nIdx + windowRight, RoundUp(chunk, nIdx)) else nIdx + windowRight;
      BelowCeil(right, key / blockN, key);
    }

    lemma FirstKeyIsSink(mBlock: int, sink: int)
      requires Valid() && 0 <= mBlock && isLocal && seqlenK > 0 && windowLeft >= 0 && windowRight >= 0 && sink > 0
      requires 0 <= QueryStart(mBlock) < seqlenQ && UnsplitNBlocks(mBlock).min != 0
      ensures InQueryBlock(mBlock, mBlock * blockM) && Allowed(QueryOf(mBlock * blockM), 0, sink)
    {
      hide TruncDiv, CeilDiv, RoundDown, RoundUp, QueryOf;
      ProductOrder(mBlock, mBlock + 1, blockM);
      var nIdx := QueryStart(mBlock) + seqlenK - seqlenQ;
      TruncDivBounds(nIdx - windowLeft, blockN);
      if Chunked() {
        RoundDownMonotone(chunk, nIdx, nIdx);
        TruncDivBounds(RoundDown(chunk, nIdx), blockN);
      }
      assert nIdx > 0 || nIdx == 0;
    }

    // ----- Query blocks of a key block ----------------------------------------------------------------

    /** `get_m_block_min_max`, which does not know of chunks or packed heads. */
    function MBlocks(nBlock: int, sink: int): Range
      requires Valid()
    {
      var mBlockMax :=
        if isLocal && nBlock >= CeilDiv(sink, blockN) then
          Min(CeilDiv(seqlenQ, blockM), CeilDiv((nBlock + 1) * blockN + seqlenQ - seqlenK + windowLeft, blockM))
        else CeilDiv(seqlenQ, blockM);
      var mBlockMin :=
        if isCausal || isLocal then
          Max(0, TruncDiv(nBlock * blockN + seqlenQ - seqlenK - windowRight, blockM))
        else 0;
      Range(mBlockMin, mBlockMax)
    }

    /** A row from `limit` on lies in a row block from the truncated quotient on, or at zero. */
    lemma AboveRowFloor(limit: int, mBlock: int, row: int)
      requires blockM > 0 && 0 <= row && limit <= row && mBlock * blockM <= row < (mBlock + 1) * blockM
      ensures Max(0, TruncDiv(limit, blockM)) <= mBlock
    {
      hide TruncDiv;
      ProductOrder(mBlock + 1, 0, blockM);
      TruncDivBounds(limit, blockM);
      ProductOrder(mBlock + 1, TruncDiv(limit, blockM), blockM);
    }

    lemma BelowRowCeil(limit: int, mBlock: int, row: int)
      requires blockM > 0 && row < limit && mBlock * blockM <= row
      ensures mBlock < CeilDiv(limit, blockM)
    {
      hide CeilDiv;
      CeilDivBounds(limit, blockM);
      ProductOrder(CeilDiv(limit, blockM), mBlock, blockM);
    }

    lemma VisitedRowBlock(nBlock: int, key: int, row: int, sink: int, mBlock: int)
      requires Valid() && !Chunked() && !packGQA && (isCausal ==> windowRight >= 0)
      requires 0 <= row < seqlenQ && InKeyBlock(nBlock, key) && Allowed(row, key, sink)
      requires mBlock * blockM <= row < (mBlock + 1) * blockM
      ensures MBlocks(nBlock, sink).Contains(mBlock)
    {
      hide TruncDiv, CeilDiv, RoundDown;
      BelowRowCeil(seqlenQ, mBlock, row);
      if isLocal && nBlock >= CeilDiv(sink, blockN) {
        CeilDivBounds(sink, blockN);
        ProductOrder(CeilDiv(sink, blockN), nBlock, blockN);
        BelowRowCeil((nBlock + 1) * blockN + seqlenQ - seqlenK + windowLeft, mBlock, row);
      }
      if isCausal || isLocal {
        AboveRowFloor(nBlock * blockN + seqlenQ - seqlenK - windowRight, mBlock, row);
      } else {
        ProductOrder(mBlock + 1, 0, blockM);
      }
    }

    /**
      The key-major walk of the backward covers the mask, sinks included, without chunks or packed heads.
      A causal launch carries a right window of zero; a negative one would not do (see `NegativeWindowLosesRows`).
     */
    lemma KeyMajorCovers(nBlock: int, sink: int)
      requires Valid() && !Chunked() && !packGQA && (isCausal ==> windowRight >= 0)
      ensures forall row, key | 0 <= row < seqlenQ && InKeyBlock(nBlock, key) && Allowed(row, key, sink) ::
                MBlocks(nBlock, sink).Contains(row / blockM)
    {
      hide Allowed, MBlocks;
      forall row, key | 0 <= row < seqlenQ && InKeyBlock(nBlock, key) && Allowed(row, key, sink)
        ensures MBlocks(nBlock, sink).Contains(row / blockM)
      {
        DivBounds(row, blockM);
        VisitedRowBlock(nBlock, key, row, sink, row / blockM);
      }
    }

    /** The first visited row block holds the first row that may see the key block's first key. */
    lemma FirstReachedRow(nBlock: int, sink: int) returns (row: int)
      requires Valid() && (isCausal ==> windowRight == 0) && 0 <= nBlock
      ensures 0 <= row && MBlocks(nBlock, sink).min * blockM <= row < (MBlocks(nBlock, sink).min + 1) * blockM
      ensures !Chunked() ==> !RightOfWindow(row, nBlock * blockN)
      ensures row == if isCausal || isLocal then Max(0, nBlock * blockN - Offset() - windowRight) else 0
    {
      hide TruncDiv, CeilDiv, RoundDown;
      var first := nBlock * blockN + seqlenQ - seqlenK - windowRight;
      row := if isCausal || isLocal then Max(0, first) else 0;
      TruncDivBounds(first, blockM);
    }

    /** And the last block holds the last row whose local window reaches back to the key block's last key. */
    lemma LastReachedRow(nBlock: int, sink: int) returns (row: int)
      requires Valid() && 0 <= nBlock && MBlocks(nBlock, sink).max > 0
      ensures 0 <= row < seqlenQ && (MBlocks(nBlock, sink).max - 1) * blockM <= row < MBlocks(nBlock, sink).max * blockM
      ensures isLocal && !Chunked() && nBlock >= CeilDiv(sink, blockN) ==> !LeftOfWindow(row, (nBlock + 1) * blockN - 1)
      ensures row == seqlenQ - 1
           || (isLocal && nBlock >= CeilDiv(sink, blockN) && row == (nBlock + 1) * blockN - Offset() + windowLeft - 1)
    {
      hide TruncDiv, CeilDiv, RoundDown;
      var last := (nBlock + 1) * blockN + seqlenQ - seqlenK + windowLeft;
      var limit := if isLocal && nBlock >= CeilDiv(sink, blockN) then Min(seqlenQ, last) else seqlenQ;
      assert MBlocks(nBlock, sink).max == CeilDiv(limit, blockM) by { CeilOfMin(seqlenQ, last, blockM); }
      CeilDivBounds(limit, blockM);
      ProductOrder(0, CeilDiv(limit, blockM) - 1, blockM);
      row := limit - 1;
    }

    /** A key block before the last sink block starts with a sink. */
    lemma SinkBlockStart(nBlock: int, sink: int)
      requires blockN > 0 && 0 <= nBlock < CeilDiv(sink, blockN)
      ensures nBlock * blockN < sink
    {
      hide CeilDiv;
      CeilDivBounds(sink, blockN);
      ProductOrder(nBlock, CeilDiv(sink, blockN) - 1, blockN);
    }

    /**
      Nor is this range larger than needed: for a block that holds keys, its first row block holds a pair that
      the mask keeps.
     */
    lemma FirstRowBlockNeeded(nBlock: int, sink: int) returns (row: int, key: int)
      requires Valid() && !Chunked() && 0 <= nBlock && nBlock * blockN < seqlenK && MBlocks(nBlock, sink).max > 0
      requires isCausal ==> windowRight == 0
      requires isLocal ==> windowLeft >= 0 && windowRight >= 0
      ensures 0 <= row < seqlenQ && InKeyBlock(nBlock, key) && Allowed(row, key, sink)
      ensures MBlocks(nBlock, sink).min * blockM <= row < (MBlocks(nBlock, sink).min + 1) * blockM
    {
      var end := LastReachedRow(nBlock, sink);
      row := FirstReachedRow(nBlock, sink);
      hide MBlocks, CeilDiv;
      var start, window := nBlock * blockN, row + Offset() - windowLeft;
      assert (nBlock + 1) * blockN == start + blockN;
      ProductOrder(0, nBlock, blockN);
      if isLocal && nBlock < CeilDiv(sink, blockN) {
        SinkBlockStart(nBlock, sink);
        key := start;
      } else {
        key := if isLocal then Max(start, window) else start;
        if isLocal {
          RangeEndsAfter(nBlock, sink);
        }
      }
    }

    lemma RangeEndsAfter(nBlock: int, sink: int)
      requires Valid() && isLocal && nBlock >= CeilDiv(sink, blockN) && MBlocks(nBlock, sink).max > 0
      ensures (nBlock + 1) * blockN - Offset() + windowLeft > 0
    {
      hide TruncDiv, CeilDiv;
      var last := (nBlock + 1) * blockN + seqlenQ - seqlenK + windowLeft;
      CeilDivBounds(last, blockM);
      ProductOrder(0, CeilDiv(last, blockM) - 1, blockM);
    }

    /** And so does its last row block. */
    lemma LastRowBlockNeeded(nBlock: int, sink: int) returns (row: int, key: int)
      requires Valid() && !Chunked() && 0 <= nBlock && nBlock * blockN < seqlenK && MBlocks(nBlock, sink).max > 0
      requires isLocal ==> windowLeft >= 0 && windowRight >= 0
      ensures 0 <= row < seqlenQ && InKeyBlock(nBlock, key) && Allowed(row, key, sink)
      ensures (MBlocks(nBlock, sink).max - 1) * blockM <= row < MBlocks(nBlock, sink).max * blockM
    {
      hide MBlocks, CeilDiv, Allowed;
      row := LastReachedRow(nBlock, sink);
      var start, sinks := nBlock * blockN, isLocal && nBlock < CeilDiv(sink, blockN);
      NextStart(nBlock, blockN);
      ProductOrder(0, nBlock, blockN);
      if sinks {
        SinkBlockStart(nBlock, sink);
      }
      key := KeyOfLastRow(start, row, sinks, sink);
    }

    lemma NextStart(n: int, size: int)
      ensures (n + 1) * size == n * size + size
    {
    }

    /** A key of the block from `start` that the last row in its reach attends to. */
    lemma KeyOfLastRow(start: int, row: int, sinks: bool, sink: int) returns (key: int)
      requires Valid() && !Chunked() && 0 <= start < seqlenK && 0 <= row < seqlenQ
      requires isLocal ==> windowLeft >= 0 && windowRight >= 0
      requires sinks ==> isLocal && start < sink
      requires row == seqlenQ - 1 || (isLocal && !sinks && row == start + blockN - Offset() + windowLeft - 1)
      requires isLocal && !sinks ==> !LeftOfWindow(row, start + blockN - 1)
      ensures start <= key < start + blockN && Allowed(row, key, sink)
    {
      key := if sinks then start else Min(start + blockN, seqlenK) - 1;
    }

    // ----- Iterations without a mask --------------------------------------------------------------------

    /** `get_n_block_min_causal_local_mask` */
    function MaskedFrom(mBlock: int, nBlockMin: int): int
      requires Valid()
    {
      var nIdx := QueryStart(mBlock) + seqlenK - seqlenQ;
      var nIdxRight := if isLocal then nIdx + windowRight else nIdx;
      var nIdxRight := if Chunked() then Min(nIdxRight, RoundUp(chunk, nIdx)) else nIdxRight;
      Max(nBlockMin, TruncDiv(nIdxRight, blockN))
    }

    /** `get_n_block_min_before_local_mask` */
    function UnmaskedFrom(mBlock: int, nBlockMin: int): int
      requires Valid()
    {
      var nIdx := QueryEnd(mBlock) + seqlenK - seqlenQ;
      var nIdxLeft := if isLocal then nIdx - windowLeft else nIdx;
      var nIdxLeft := if Chunked() then Max(nIdxLeft, RoundDown(chunk, nIdx)) else nIdxLeft;
      if isLocal then Max(nBlockMin, CeilDiv(nIdxLeft, blockN)) else nBlockMin
    }

    /** A whole block below a truncated quotient ends at or before the dividend. */
    lemma BlockBelow(limit: int, nBlock: int)
      requires blockN > 0 && 0 <= nBlock < TruncDiv(limit, blockN)
      ensures (nBlock + 1) * blockN <= limit
    {
      hide TruncDiv;
      TruncDivBounds(limit, blockN);
      ProductOrder(nBlock + 1, TruncDiv(limit, blockN), blockN);
    }

    /** A whole block from a rounded-up quotient on starts at or after the dividend. */
    lemma BlockFrom(limit: int, nBlock: int)
      requires blockN > 0 && CeilDiv(limit, blockN) <= nBlock
      ensures limit <= nBlock * blockN
    {
      hide CeilDiv;
      CeilDivBounds(limit, blockN);
      ProductOrder(CeilDiv(limit, blockN), nBlock, blockN);
    }

    lemma UnmaskedRight(mBlock: int, nBlockMin: int, nBlock: int, index: int, key: int)
      requires Valid() && 0 <= mBlock && 0 <= nBlockMin && (isCausal || isLocal)
      requires nBlockMin <= nBlock < MaskedFrom(mBlock, nBlockMin)
      requires mBlock * blockM <= index < (mBlock + 1) * blockM && InKeyBlock(nBlock, key)
      ensures !RightOfWindow(QueryOf(index), key)
    {
      hide TruncDiv, CeilDiv, RoundDown, RoundUp, QueryOf, QueryStart, QueryEnd;
      QueryBounds(mBlock, index);
      var nIdx := QueryStart(mBlock) + seqlenK - seqlenQ;
      var right := if isLocal then nIdx + windowRight else nIdx;
      var right' := if Chunked() then Min(right, RoundUp(chunk, nIdx)) else right;
      BlockBelow(right', nBlock);
      if Chunked() {
        RoundDownMonotone(chunk, nIdx, QueryOf(index) + Offset());
      }
    }

    lemma UnmaskedLeft(mBlock: int, nBlockMin: int, nBlock: int, index: int, key: int)
      requires Valid() && 0 <= mBlock && UnmaskedFrom(mBlock, nBlockMin) <= nBlock
      requires mBlock * blockM <= index < (mBlock + 1) * blockM && InKeyBlock(nBlock, key)
      ensures !LeftOfWindow(QueryOf(index), key)
    {
      hide TruncDiv, CeilDiv, RoundDown, RoundUp, QueryOf, QueryStart, QueryEnd;
      QueryBounds(mBlock, index);
      var nIdx := QueryEnd(mBlock) + seqlenK - seqlenQ;
      if isLocal {
        var left := if Chunked() then Max(nIdx - windowLeft, RoundDown(chunk, nIdx)) else nIdx - windowLeft;
        BlockFrom(left, nBlock);
      }
      if Chunked() {
        RoundDownMonotone(chunk, QueryOf(index) + Offset(), nIdx);
      }
    }

    /**
      Skipping the mask is safe: from `get_n_block_min_before_local_mask` up to
      `get_n_block_min_causal_local_mask` every key below the end is allowed for every row of the block.
     */
    lemma UnmaskedIterationsSafe(mBlock: int, nBlockMin: int, nBlock: int)
      requires Valid() && 0 <= mBlock && 0 <= nBlockMin && (isCausal || isLocal)
      requires UnmaskedFrom(mBlock, nBlockMin) <= nBlock < MaskedFrom(mBlock, nBlockMin)
      ensures forall index, key
                | mBlock * blockM <= index < (mBlock + 1) * blockM && InKeyBlock(nBlock, key) && key < seqlenK ::
                Allowed(QueryOf(index), key, 0)
    {
      hide RightOfWindow, LeftOfWindow, QueryOf;
      assert nBlockMin <= nBlock by { UnmaskedStart(mBlock, nBlockMin); }
      hide UnmaskedFrom, MaskedFrom;
      ProductOrder(0, nBlock, blockN);
      forall index, key | mBlock * blockM <= index < (mBlock + 1) * blockM && InKeyBlock(nBlock, key) && key < seqlenK
        ensures Allowed(QueryOf(index), key, 0)
      {
        UnmaskedRight(mBlock, nBlockMin, nBlock, index, key);
        UnmaskedLeft(mBlock, nBlockMin, nBlock, index, key);
      }
    }

    lemma UnmaskedStart(mBlock: int, nBlockMin: int)
      requires Valid()
      ensures nBlockMin <= UnmaskedFrom(mBlock, nBlockMin)
    {
    }

    /**
      Without chunks the mask is skipped wherever it can be, up to one block at either end: a later block
      has a key hidden from the first query, an earlier block a key hidden from the last.
     */
    lemma MaskedIterationsNeeded(mBlock: int, nBlockMin: int, nBlock: int)
      requires Valid() && 0 <= mBlock && 0 <= nBlock && (isCausal || isLocal) && !Chunked()
      ensures MaskedFrom(mBlock, nBlockMin) < nBlock ==> RightOfWindow(QueryStart(mBlock), nBlock * blockN)
      ensures isLocal && nBlockMin <= nBlock && nBlock + 1 < UnmaskedFrom(mBlock, nBlockMin) ==>
                LeftOfWindow(QueryEnd(mBlock) - 1, nBlock * blockN)
    {
      hide TruncDiv, CeilDiv, RoundDown, RoundUp, QueryOf, QueryStart, QueryEnd;
      var right := QueryStart(mBlock) + seqlenK - seqlenQ + if isLocal then windowRight else 0;
      BlockBeyond(right, nBlock);
      var left := QueryEnd(mBlock) + seqlenK - seqlenQ - windowLeft;
      CeilDivBounds(left, blockN);
      ProductOrder(nBlock + 1, CeilDiv(left, blockN) - 1, blockN);
      var start := nBlock * blockN;
      assert (nBlock + 1) * blockN == start + blockN;
      hide MaskedFrom, UnmaskedFrom, RightOfWindow, LeftOfWindow;
    }

    /** A block past a truncated quotient starts past the dividend. */
    lemma BlockBeyond(limit: int, nBlock: int)
      requires blockN > 0 && 0 <= nBlock
      ensures TruncDiv(limit, blockN) < nBlock ==> limit < nBlock * blockN
    {
      hide TruncDiv;
      TruncDivBounds(limit, blockN);
      ProductOrder(0, nBlock, blockN);
      ProductOrder(TruncDiv(limit, blockN) + 1, nBlock, blockN);
    }

    // ----- Splits ---------------------------------------------------------------------------------------

    /** `get_n_block_min_max` for one split; `splitWord` is the kernel's 32-bit `split_idx`. */
    function NBlocks(mBlock: int, splitWord: int, numSplits: int): Range
      requires Valid() && numSplits > 0 && -0x8000_0000 <= splitWord < 0x8000_0000
    {
      var all := UnsplitNBlocks(mBlock);
      var perSplit := if all.max <= all.min then 0 else CeilDiv(all.max - all.min, SplitCount(splitWord, numSplits));
      var nBlockMin := all.min + SplitIndex(splitWord) * perSplit;
      Range(nBlockMin, Min(nBlockMin + perSplit, all.max))
    }

    lemma SplitRange(mBlock: int, splitWord: int, numSplits: int)
      requires Valid() && numSplits > 0 && -0x8000_0000 <= splitWord < 0x8000_0000
      ensures NBlocks(mBlock, splitWord, numSplits)
           == Piece(UnsplitNBlocks(mBlock), SplitIndex(splitWord), SplitCount(splitWord, numSplits))
    {
    }

    /**
      The splits partition the walk: whichever count is in force, each visited block is visited by exactly
      one split.
     */
    lemma SplitsPartition(mBlock: int, dynamic: int, numSplits: int, nBlock: int)
      requires Valid() && numSplits > 0 && 0 <= dynamic < 0x1_0000
      requires InForce(dynamic, numSplits) <= 0x1_0000
      ensures UnsplitNBlocks(mBlock).Contains(nBlock) <==>
              exists s :: 0 <= s < InForce(dynamic, numSplits) &&
                NBlocks(mBlock, PackSplit(dynamic, s), numSplits).Contains(nBlock)
      ensures forall s, t | 0 <= s < t < 0x1_0000 ::
                && !(NBlocks(mBlock, PackSplit(dynamic, s), numSplits).Contains(nBlock)
                     && NBlocks(mBlock, PackSplit(dynamic, t), numSplits).Contains(nBlock))
      ensures forall s | InForce(dynamic, numSplits) <= s < 0x1_0000 ::
                !NBlocks(mBlock, PackSplit(dynamic, s), numSplits).Contains(nBlock)
    {
      hide UnsplitNBlocks, NBlocks, Piece, PackSplit, Valid;
      var all, count := UnsplitNBlocks(mBlock), InForce(dynamic, numSplits);
      forall s | 0 <= s < 0x1_0000
        ensures NBlocks(mBlock, PackSplit(dynamic, s), numSplits) == Piece(all, s, count)
      {
        SplitWordFields(dynamic, s, numSplits);
        SplitRange(mBlock, PackSplit(dynamic, s), numSplits);
      }
      forall s, t | 0 <= s < t < 0x1_0000
        ensures !(Piece(all, s, count).Contains(nBlock) && Piece(all, t, count).Contains(nBlock))
      {
        PiecesDisjoint(all, s, t, count, nBlock);
      }
      forall s | 0 <= s && Piece(all, s, count).Contains(nBlock) ensures all.Contains(nBlock) && s < count {
        PieceWithin(all, s, count, nBlock);
      }
      if all.Contains(nBlock) {
        var s := PieceOf(all, count, nBlock);
        assert NBlocks(mBlock, PackSplit(dynamic, s), numSplits).Contains(nBlock);
      }
    }

    /** Splits take the walk in order: every block of an earlier split lies below every block of a later one. */
    lemma SplitsInOrder(mBlock: int, dynamic: int, numSplits: int, s: int, t: int, n: int, n': int)
      requires Valid() && numSplits > 0 && 0 <= dynamic < 0x1_0000 && 0 <= s < t < 0x1_0000
      requires NBlocks(mBlock, PackSplit(dynamic, s), numSplits).Contains(n)
      requires NBlocks(mBlock, PackSplit(dynamic, t), numSplits).Contains(n')
      ensures n < n'
    {
      hide UnsplitNBlocks, PackSplit, NBlocks, Piece;
      SplitWordFields(dynamic, s, numSplits);
      SplitWordFields(dynamic, t, numSplits);
      SplitRange(mBlock, PackSplit(dynamic, s), numSplits);
      SplitRange(mBlock, PackSplit(dynamic, t), numSplits);
      PiecesInOrder(UnsplitNBlocks(mBlock), s, t, InForce(dynamic, numSplits), n, n');
    }

    /** The heads of a query are packed next to each other. */
    lemma PackedQuery(index: int, query: int)
      requires Valid() && 0 <= index
      ensures packGQA ==>
                (QueryOf(index) == query <==> query * qheadPerKhead <= index < query * qheadPerKhead + qheadPerKhead)
      ensures !packGQA ==> (QueryOf(index) == query <==> index == query)
    {
      if packGQA {
        DivBounds(index, qheadPerKhead);
        assert (index / qheadPerKhead + 1) * qheadPerKhead == index / qheadPerKhead * qheadPerKhead + qheadPerKhead;
        if query * qheadPerKhead <= index < query * qheadPerKhead + qheadPerKhead {
          QuotientUnique(index, query, index - query * qheadPerKhead, qheadPerKhead);
        }
      }
    }

    /** No split is longer than an even share, rounded up. */
    lemma SplitsBalanced(mBlock: int, splitWord: int, numSplits: int)
      requires Valid() && numSplits > 0 && -0x8000_0000 <= splitWord < 0x8000_0000
      ensures var r := NBlocks(mBlock, splitWord, numSplits);
              var all := UnsplitNBlocks(mBlock);
              r.max > r.min ==> (r.max - r.min - 1) * SplitCount(splitWord, numSplits) < all.max - all.min
    {
      hide CeilDiv, UnsplitNBlocks, SplitCount, SplitIndex;
      var r, all := NBlocks(mBlock, splitWord, numSplits), UnsplitNBlocks(mBlock);
      var total, count := all.max - all.min, SplitCount(splitWord, numSplits);
      if r.max > r.min {
        CeilDivBounds(total, count);
        ProductOrder(r.max - r.min, CeilDiv(total, count), count);
        ProductOrder(r.max - r.min - 1, CeilDiv(total, count) - 1, count);
      }
    }

    // ----- Appended keys --------------------------------------------------------------------------------

    /** `get_n_block_k_new_min_max`, from the range of the split. */
    function NewKBlocks(range: Range, seqlenKOg: int, seqlenKNew: int): Range
      requires Valid()
    {
      var idxMin := Max(range.min * blockN - seqlenKOg, 0);
      var idxMax := Min(range.max * blockN - seqlenKOg, seqlenKNew);
      var newMin := TruncDiv(idxMin, blockN);
      Range(newMin, if idxMax > idxMin then CeilDiv(idxMax, blockN) else newMin)
    }

    lemma NewKeyCovered(range: Range, seqlenKOg: int, seqlenKNew: int, newKey: int)
      requires Valid() && 0 <= newKey < seqlenKNew
      requires range.min * blockN <= seqlenKOg + newKey < range.max * blockN
      ensures NewKBlocks(range, seqlenKOg, seqlenKNew).Contains(newKey / blockN)
    {
      hide TruncDiv, CeilDiv;
      var idxMin := Max(range.min * blockN - seqlenKOg, 0);
      var idxMax := Min(range.max * blockN - seqlenKOg, seqlenKNew);
      DivBounds(newKey, blockN);
      AboveFloor(idxMin, newKey / blockN, newKey);
      BelowCeil(idxMax, newKey / blockN, newKey);
    }

    /** A block to be appended holds an appended key whose position lies in the range. */
    lemma NewBlockNeeded(range: Range, seqlenKOg: int, seqlenKNew: int, nBlock: int) returns (newKey: int)
      requires Valid() && NewKBlocks(range, seqlenKOg, seqlenKNew).Contains(nBlock)
      ensures 0 <= newKey < seqlenKNew && InKeyBlock(nBlock, newKey)
      ensures range.min * blockN <= seqlenKOg + newKey < range.max * blockN
    {
      hide TruncDiv, CeilDiv;
      var idxMin := Max(range.min * blockN - seqlenKOg, 0);
      var idxMax := Min(range.max * blockN - seqlenKOg, seqlenKNew);
      TruncDivBounds(idxMin, blockN);
      CeilDivBounds(idxMax, blockN);
      ProductOrder(nBlock, CeilDiv(idxMax, blockN) - 1, blockN);
      ProductOrder(nBlock + 1, TruncDiv(idxMin, blockN) + 1, blockN);
      newKey := Max(nBlock * blockN, idxMin);
    }

    /** The blocks to be appended are exactly those that hold an appended key of the range. */
    lemma NewKBlocksExact(range: Range, seqlenKOg: int, seqlenKNew: int, nBlock: int)
      requires Valid()
      ensures NewKBlocks(range, seqlenKOg, seqlenKNew).Contains(nBlock) <==>
              exists newKey :: 0 <= newKey < seqlenKNew && InKeyBlock(nBlock, newKey)
                               && range.min * blockN <= seqlenKOg + newKey < range.max * blockN
    {
      hide NewKBlocks;
      if NewKBlocks(range, seqlenKOg, seqlenKNew).Contains(nBlock) {
        var newKey := NewBlockNeeded(range, seqlenKOg, seqlenKNew, nBlock);
      }
      forall newKey | 0 <= newKey < seqlenKNew && InKeyBlock(nBlock, newKey)
                      && range.min * blockN <= seqlenKOg + newKey < range.max * blockN
        ensures NewKBlocks(range, seqlenKOg, seqlenKNew).Contains(nBlock)
      {
        NewKeyCovered(range, seqlenKOg, seqlenKNew, newKey);
        QuotientUnique(newKey, nBlock, newKey - nBlock * blockN, blockN);
      }
    }

    /**
      Every appended key that the whole walk of a query block reaches is appended by some split.
     */
    lemma NewKeysCovered(mBlock: int, dynamic: int, numSplits: int, seqlenKOg: int, seqlenKNew: int, newKey: int)
      requires Valid() && numSplits > 0 && 0 <= dynamic < 0x1_0000 && InForce(dynamic, numSplits) <= 0x1_0000
      requires 0 <= seqlenKOg && 0 <= newKey < seqlenKNew
      requires UnsplitNBlocks(mBlock).Contains((seqlenKOg + newKey) / blockN)
      ensures exists s :: 0 <= s < InForce(dynamic, numSplits)
                && NewKBlocks(NBlocks(mBlock, PackSplit(dynamic, s), numSplits), seqlenKOg,
                    seqlenKNew).Contains(newKey / blockN)
    {
      hide UnsplitNBlocks, NBlocks, NewKBlocks;
      var nBlock := (seqlenKOg + newKey) / blockN;
      SplitsPartition(mBlock, dynamic, numSplits, nBlock);
      var s :| 0 <= s < InForce(dynamic, numSplits) &&
        NBlocks(mBlock, PackSplit(dynamic, s), numSplits).Contains(nBlock);
      var range := NBlocks(mBlock, PackSplit(dynamic, s), numSplits);
      DivBounds(seqlenKOg + newKey, blockN);
      ProductOrder(range.min, nBlock, blockN);
      ProductOrder(nBlock + 1, range.max, blockN);
      NewKeyCovered(range, seqlenKOg, seqlenKNew, newKey);
    }
  }

  // ----- Witnesses --------------------------------------------------------------------------------------

  /** With sink tokens and a window that has moved on, the query-major walk leaves out an allowed pair. */
  lemma SinkNotVisited()
    ensures var t := BlockMN(64, 64, false, true, false, 256, 256, 16, 0, 0, 1);
            && t.Valid() && t.InQueryBlock(3, 200) && t.Allowed(200, 0, 4)
            && !t.UnsplitNBlocks(3).Contains(0)
  {
  }

  /** A causal launch with a right window of -1 would drop the first row of a block of the diagonal. */
  lemma NegativeWindowLosesRows()
    ensures var t := BlockMN(64, 64, true, false, false, 128, 65, -1, -1, 0, 1);
            && t.Valid() && t.InKeyBlock(0, 0) && t.Allowed(63, 0, 0)
            && !t.MBlocks(0, 0).Contains(63 / 64)
  {
  }

  // ----- Arithmetic of packed heads -----------------------------------------------------------------------

  /** An index between two others with a quotient between theirs. */
  function MultipleIn(lo: int, hi: int, q: int, quotient: int): (index: int)
    requires q > 0 && 0 <= lo < hi && lo / q <= quotient <= (hi - 1) / q
    ensures lo <= index < hi && index / q == quotient
  {
    MultipleBounds(lo, hi, q, quotient);
    Max(lo, quotient * q)
  }

  lemma MultipleBounds(lo: int, hi: int, q: int, quotient: int)
    requires q > 0 && 0 <= lo < hi && lo / q <= quotient <= (hi - 1) / q
    ensures var index := Max(lo, quotient * q);
            lo <= index < hi && index / q == quotient
  {
    var a, b, index := lo / q, (hi - 1) / q, Max(lo, quotient * q);
    DivBounds(lo, q);
    DivBounds(hi - 1, q);
    ProductOrder(quotient, b, q);
    ProductOrder(a, quotient, q);
    assert (a + 1) * q == a * q + q;
    QuotientUnique(index, quotient, index - quotient * q, q);
  }

  // ----- Arithmetic of splits -----------------------------------------------------------------------------

  /** The 32-bit word read as unsigned. */
  function Unsigned(word: int): int {
    if word < 0 then word + 0x1_0000_0000 else word
  }

  function SplitIndex(splitWord: int): int {
    Unsigned(splitWord) % 0x1_0000
  }

  function SplitCount(splitWord: int, numSplits: int): (count: int)
    requires numSplits > 0 && -0x8000_0000 <= splitWord < 0x8000_0000
    ensures count > 0
  {
    var dynamic := Unsigned(splitWord) / 0x1_0000;
    if dynamic > 0 then dynamic else numSplits
  }

  function InForce(dynamic: int, numSplits: int): int {
    if dynamic > 0 then dynamic else numSplits
  }

  /** A split index with the dynamic count in the high 16 bits, as a signed 32-bit word. */
  function PackSplit(dynamic: int, split: int): (word: int)
    requires 0 <= dynamic < 0x1_0000 && 0 <= split < 0x1_0000
    ensures -0x8000_0000 <= word < 0x8000_0000
  {
    var word := dynamic * 0x1_0000 + split;
    if word >= 0x8000_0000 then word - 0x1_0000_0000 else word
  }

  lemma SplitWordFields(dynamic: int, split: int, numSplits: int)
    requires 0 <= dynamic < 0x1_0000 && 0 <= split < 0x1_0000 && numSplits > 0
    ensures SplitIndex(PackSplit(dynamic, split)) == split
    ensures SplitCount(PackSplit(dynamic, split), numSplits) == InForce(dynamic, numSplits)
  {
  }

  /** The low 16 bits of a word are the split, the high 16 bits the dynamic count, also in a negative word. */
  lemma SplitWordBits(word: int, numSplits: int)
    requires -0x8000_0000 <= word < 0x8000_0000 && numSplits > 0
    ensures 0 <= SplitIndex(word) < 0x1_0000 && (word - SplitIndex(word)) % 0x1_0000 == 0
    ensures var high := (word - SplitIndex(word)) / 0x1_0000;
            SplitCount(word, numSplits) == if high > 0 then high else if high == 0 then numSplits else high + 0x1_0000
  {
  }

  /** Piece `s` of `count` equal pieces of a range; the last ones may be short or empty. */
  function Piece(all: Range, s: int, count: int): Range
    requires count > 0
  {
    var size := if all.max <= all.min then 0 else CeilDiv(all.max - all.min, count);
    var low := all.min + s * size;
    Range(low, Min(low + size, all.max))
  }

  lemma PiecesDisjoint(all: Range, s: int, t: int, count: int, n: int)
    requires count > 0 && 0 <= s < t
    ensures !(Piece(all, s, count).Contains(n) && Piece(all, t, count).Contains(n))
  {
    hide CeilDiv;
    if all.max > all.min {
      var size := CeilDiv(all.max - all.min, count);
      CeilDivBounds(all.max - all.min, count);
      ProductOrder(s, t, size);
    }
  }

  lemma PiecesInOrder(all: Range, s: int, t: int, count: int, n: int, n': int)
    requires count > 0 && 0 <= s < t && Piece(all, s, count).Contains(n) && Piece(all, t, count).Contains(n')
    ensures n < n'
  {
    hide CeilDiv;
    if all.max > all.min {
      var size := CeilDiv(all.max - all.min, count);
      CeilDivBounds(all.max - all.min, count);
      ProductOrder(s, t, size);
    }
  }

  lemma PieceWithin(all: Range, s: int, count: int, n: int)
    requires count > 0 && 0 <= s && Piece(all, s, count).Contains(n)
    ensures all.Contains(n) && s < count
  {
    hide CeilDiv;
    var size := CeilDiv(all.max - all.min, count);
    CeilDivBounds(all.max - all.min, count);
    ProductOrder(0, s, size);
    ProductOrder(s, count, size);
  }

  lemma PieceOf(all: Range, count: int, n: int) returns (s: int)
    requires count > 0 && all.Contains(n)
    ensures 0 <= s < count && Piece(all, s, count).Contains(n)
  {
    hide CeilDiv;
    var size := CeilDiv(all.max - all.min, count);
    CeilDivBounds(all.max - all.min, count);
    s := (n - all.min) / size;
    DivBounds(n - all.min, size);
    ProductOrder(s, count, size);
    assert (s + 1) * size == s * size + size;
  }

  lemma DivMonotone(a: int, b: int, n: int)
    requires n > 0 && 0 <= a <= b
    ensures TruncDiv(a, n) <= TruncDiv(b, n)
  {
    DivBounds(a, n);
    DivBounds(b, n);
    ProductOrder(b / n + 1, a / n, n);
  }

  /** Rounding up before or after taking a minimum gives the same positive count. */
  lemma CeilOfMin(a: int, b: int, n: int)
    requires n > 0
    ensures Min(CeilDiv(a, n), CeilDiv(b, n)) > 0 ==> Min(CeilDiv(a, n), CeilDiv(b, n)) == CeilDiv(Min(a, b), n)
  {
    hide CeilDiv;
    CeilDivBounds(a, n);
    CeilDivBounds(b, n);
    if a > 0 && b > 0 {
      CeilMonotone(Min(a, b), Max(a, b), n);
    }
  }
}
