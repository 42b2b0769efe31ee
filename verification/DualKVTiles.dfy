/**
  The tile walk over context and decoded keys: summing over tiles, skipping padding, is summing over the
  logical keys, and the tiles that the causal bound leaves out hold no visible key.
 */
module DualKVTiles {
  import opened RealSums
  import opened ExpLogs
  import opened LinearAlgebra
  import opened CxxArithmetic
  import opened DualKV

  /** The terms of tile `n` of a sum over logical keys. */
  function SlotTerms(a: Launch, f: Vector, n: int): Vector
    requires a.blockN > 0
  {
    col => if a.IsKey(n, col) then f(a.KeyPos(n) + col) else 0.0
  }

  function TileSums(a: Launch, f: Vector): Vector
    requires a.blockN > 0
  {
    n => Sum(0, a.blockN, SlotTerms(a, f, n))
  }

  /** One tile contributes the keys from its start to the end of its valid slots. */
  lemma TileIsRange(a: Launch, f: Vector, n: int)
    requires a.blockN > 0 && 0 <= a.ValidK(n) <= a.blockN
    ensures TileSums(a, f)(n) == Sum(a.KeyPos(n), a.KeyPos(n) + a.ValidK(n), f)
  {
    var valid := a.ValidK(n);
    SumSupport(0, valid, a.blockN, SlotTerms(a, f, n));
    SumShift(0, valid, a.KeyPos(n), f, SlotTerms(a, f, n));
  }

  lemma {:induction false} ContextPrefix(a: Launch, f: Vector, n: int)
    requires a.blockN > 0 && 0 <= n <= a.BlocksContext()
    ensures Sum(0, n, TileSums(a, f)) == Sum(0, Min(n * a.blockN, a.contextLen), f)
    decreases n
  {
    hide CeilDiv, TileSums;
    a.BlockCounts();
    ProductOrder(0, n, a.blockN);
    if n > 0 {
      ContextPrefix(a, f, n - 1);
      ProductOrder(n - 1, a.BlocksContext() - 1, a.blockN);
      ProductOrder(0, n - 1, a.blockN);
      assert n * a.blockN == (n - 1) * a.blockN + a.blockN;
      TileIsRange(a, f, n - 1);
      SumSplit(0, (n - 1) * a.blockN, Min(n * a.blockN, a.contextLen), f);
    }
  }

  lemma {:induction false} DecodedPrefix(a: Launch, f: Vector, n: int)
    requires a.blockN > 0 && 0 <= n <= a.BlocksDecoded()
    ensures Sum(a.BlocksContext(), a.BlocksContext() + n, TileSums(a, f))
         == Sum(a.contextLen, a.contextLen + Min(n * a.blockN, a.decodedLen), f)
    decreases n
  {
    hide CeilDiv, TileSums;
    a.BlockCounts();
    ProductOrder(0, n, a.blockN);
    if n > 0 {
      DecodedPrefix(a, f, n - 1);
      ProductOrder(n - 1, a.BlocksDecoded() - 1, a.blockN);
      ProductOrder(0, n - 1, a.blockN);
      assert n * a.blockN == (n - 1) * a.blockN + a.blockN;
      TileIsRange(a, f, a.BlocksContext() + n - 1);
      SumSplit(a.contextLen, a.contextLen + (n - 1) * a.blockN, a.contextLen + Min(n * a.blockN, a.decodedLen), f);
    }
  }

  /** All physical tiles together visit every logical key exactly once. */
  lemma TilesCoverKeys(a: Launch, f: Vector)
    requires a.blockN > 0
    ensures Sum(0, a.BlocksContext() + a.BlocksDecoded(), TileSums(a, f)) == Sum(0, a.SeqlenK(), f)
  {
    hide CeilDiv, TileSums;
    a.BlockCounts();
    ContextPrefix(a, f, a.BlocksContext());
    DecodedPrefix(a, f, a.BlocksDecoded());
    SumSplit(0, a.BlocksContext(), a.BlocksContext() + a.BlocksDecoded(), TileSums(a, f));
    SumSplit(0, a.contextLen, a.SeqlenK(), f);
  }

  /** The number of tiles a row block walks: all of them, or those up to its causal bound. */
  function BlockMax(a: Launch, mBlock: nat): int
    requires a.blockM > 0 && a.blockN > 0
  {
    var all := a.BlocksContext() + a.BlocksDecoded();
    if !a.isCausal then all
    else
      var needed := a.SeqlenK() - a.seqlenQ + (mBlock + 1) * a.blockM;
      var causal := if needed <= a.contextLen then CeilDiv(needed, a.blockN)
                    else a.BlocksContext() + CeilDiv(needed - a.contextLen, a.blockN);
      Min(all, causal)
  }

  /** Tiles past the causal bound start past every key the row block may attend to. */
  lemma SkippedTileStart(a: Launch, mBlock: nat, n: int)
    requires a.blockM > 0 && a.blockN > 0 && a.isCausal
    requires Max(0, BlockMax(a, mBlock)) <= n < a.BlocksContext() + a.BlocksDecoded()
    ensures a.KeyPos(n) >= a.SeqlenK() - a.seqlenQ + (mBlock + 1) * a.blockM
  {
    hide CeilDiv;
    var needed := a.SeqlenK() - a.seqlenQ + (mBlock + 1) * a.blockM;
    a.BlockCounts();
    CeilDivBounds(needed, a.blockN);
    CeilDivBounds(needed - a.contextLen, a.blockN);
    ProductOrder(CeilDiv(needed, a.blockN), n, a.blockN);
    ProductOrder(CeilDiv(needed - a.contextLen, a.blockN), n - a.BlocksContext(), a.blockN);
    ProductOrder(0, n, a.blockN);
    ProductOrder(0, n - a.BlocksContext(), a.blockN);
    ProductOrder(n, a.BlocksContext() - 1, a.blockN);
  }

  /** And no tile is walked in vain: it begins with a key that the last row of the row block may see. */
  lemma WalkedTileSeen(a: Launch, mBlock: nat, n: int)
    requires a.blockM > 0 && a.blockN > 0 && 0 <= n < BlockMax(a, mBlock)
    ensures a.IsKey(n, 0)
    ensures a.isCausal ==> a.KeyPos(n) <= (mBlock + 1) * a.blockM - 1 + a.SeqlenK() - a.seqlenQ
  {
    var blocks, needed := a.BlocksContext(), a.SeqlenK() - a.seqlenQ + (mBlock + 1) * a.blockM;
    hide CeilDiv;
    if n < blocks {
      BelowRoundedUp(a.contextLen, a.blockN, n);
      if needed <= a.contextLen && a.isCausal {
        BelowRoundedUp(needed, a.blockN, n);
      }
    } else {
      BelowRoundedUp(a.decodedLen, a.blockN, n - blocks);
      if a.isCausal {
        CeilMonotone(needed, a.contextLen, a.blockN);
        BelowRoundedUp(needed - a.contextLen, a.blockN, n - blocks);
      }
    }
  }

  lemma BelowRoundedUp(limit: int, block: int, n: int)
    requires block > 0 && 0 <= n < CeilDiv(limit, block)
    ensures 0 <= n * block < limit
  {
    hide CeilDiv;
    CeilDivBounds(limit, block);
    ProductOrder(0, n, block);
    ProductOrder(n, CeilDiv(limit, block) - 1, block);
  }

  /** So the tiles that are walked carry the whole sum of anything that vanishes on masked keys. */
  lemma WalkedTilesSuffice(a: Launch, mBlock: nat, i: int, f: Vector)
    requires a.Valid() && i < (mBlock + 1) * a.blockM
    requires forall j | 0 <= j < a.SeqlenK() && !a.Reference().allowed(i, j) :: f(j) == 0.0
    ensures Sum(0, Max(0, BlockMax(a, mBlock)), TileSums(a, f)) == Sum(0, a.SeqlenK(), f)
  {
    hide CeilDiv, TileSums;
    var all, walked := a.BlocksContext() + a.BlocksDecoded(), Max(0, BlockMax(a, mBlock));
    a.BlockCounts();
    TilesCoverKeys(a, f);
    forall n | walked <= n < all ensures TileSums(a, f)(n) == 0.0 {
      SkippedTile(a, mBlock, i, f, n);
    }
    SumSupport(0, walked, all, TileSums(a, f));
  }

  lemma SkippedTile(a: Launch, mBlock: nat, i: int, f: Vector, n: int)
    requires a.Valid() && i < (mBlock + 1) * a.blockM
    requires forall j | 0 <= j < a.SeqlenK() && !a.Reference().allowed(i, j) :: f(j) == 0.0
    requires Max(0, BlockMax(a, mBlock)) <= n < a.BlocksContext() + a.BlocksDecoded()
    ensures TileSums(a, f)(n) == 0.0
  {
    if a.isCausal {
      SkippedTileStart(a, mBlock, n);
      hide BlockMax, CeilDiv, a.KeyPos, a.IsKey;
      forall col | 0 <= col < a.blockN ensures SlotTerms(a, f, n)(col) == 0.0 {
        if a.IsKey(n, col) {
          a.KeySlot(n, col);
          assert !a.Reference().allowed(i, a.KeyPos(n) + col);
        }
      }
      SumZero(0, a.blockN, SlotTerms(a, f, n));
    }
  }
}
