/**
  The tiled forward kernel: an online softmax over key tiles that stores only the log-sum-exp.
 */
module TritonForward {
  import opened RealSums
  import opened ExpLogs
  import opened LinearAlgebra
  import opened Attention
  import opened OnlineSoftmax
  import opened TritonKernel
  import Cxx = CxxArithmetic

  /** The first key of tile number `tiles`. */
  function TileStart(p: Kernel, tiles: int): int {
    tiles * p.blockN
  }

  /** The state of row `i` after `tiles` key tiles. */
  function RowAfter(p: Kernel, i: int, tiles: nat): (st: RowState)
    requires p.Launchable() && i >= 0
    ensures tiles > 0 ==> st.m.Fin? && st.lse.Fin?
  {
    if tiles == 0 then InitialRow()
    else
      FirstKeyVisible(p, i);
      FirstTileFinite(p, i, tiles - 1);
      Step(p.el, p.ScaledScores(i), p.LoadV(), RowAfter(p, i, tiles - 1), TileStart(p, tiles - 1), TileStart(p, tiles))
  }

  /** Key 0 is never masked, so the running maximum is finite from the first tile on. */
  lemma FirstKeyVisible(p: Kernel, i: int)
    requires p.Launchable() && i >= 0
    ensures p.ScaledScores(i)(0).Fin?
  {
  }

  lemma FirstTileFinite(p: Kernel, i: int, tiles: nat)
    requires p.Launchable() && i >= 0 && p.ScaledScores(i)(0).Fin?
    ensures TileStart(p, tiles) >= 0 && TileStart(p, tiles + 1) >= p.blockN
    ensures tiles == 0 ==>
              NextMax(p.ScaledScores(i), InitialRow(), TileStart(p, tiles), TileStart(p, tiles + 1)).Fin?
  {
    Cxx.ProductOrder(-1, tiles, p.blockN);
    if tiles == 0 {
      MaxBounds(p.ScaledScores(i), InitialRow(), 0, p.blockN);
    }
  }

  /** Key tiles visited by the programs of row block `startM`. */
  function EndN(p: Kernel, startM: nat): nat {
    if !p.isCausal then p.seqlenK
    else if (startM + 1) * p.blockM < p.seqlenK then (startM + 1) * p.blockM else p.seqlenK
  }

  lemma TileOrder(p: Kernel, tiles: nat)
    requires p.blockN > 0
    ensures 0 <= TileStart(p, tiles) <= TileStart(p, tiles + 1)
    ensures TileStart(p, tiles + 1) == TileStart(p, tiles) + p.blockN
  {
  }

  lemma InitialExact(el: ExpLog, s: int -> Ext, v: Tensor)
    ensures Exact(el, s, v, InitialRow(), 0)
  {
    forall c ensures AccumulatorExact(el, s, v, InitialRow(), 0, c) {
    }
  }

  /** After any number of tiles the row state stands for exactly the keys seen so far. */
  lemma {:induction false} RowAfterExact(p: Kernel, i: int, tiles: nat)
    requires p.Launchable() && i >= 0
    ensures Exact(p.el, p.ScaledScores(i), p.LoadV(), RowAfter(p, i, tiles), TileStart(p, tiles))
  {
    hide Exact, Step, NextMax, p.ScaledScores, p.LoadV;
    if tiles > 0 {
      RowAfterExact(p, i, tiles - 1);
      NextMaxFinite(p, i, tiles - 1);
      TileOrder(p, tiles - 1);
      var s, v, st := p.ScaledScores(i), p.LoadV(), RowAfter(p, i, tiles - 1);
      var lo, hi := TileStart(p, tiles - 1), TileStart(p, tiles);
      assert RowAfter(p, i, tiles) == Step(p.el, s, v, st, lo, hi);
      StepExact(p.el, s, v, st, lo, hi);
    } else {
      InitialExact(p.el, p.ScaledScores(i), p.LoadV());
    }
  }

  lemma NextMaxFinite(p: Kernel, i: int, tiles: nat)
    requires p.Launchable() && i >= 0
    ensures NextMax(p.ScaledScores(i), RowAfter(p, i, tiles), TileStart(p, tiles), TileStart(p, tiles + 1)).Fin?
  {
    FirstKeyVisible(p, i);
    FirstTileFinite(p, i, tiles);
  }

  /**
    The online softmax never leaves its range: in every iteration of every row the probabilities and
    the rescaling factor lie in [0, 1], the sum under the logarithm lies in [1, blockN + 1], and the
    maximum, the log-sum-exp and the next maximum are ordered, with the next maximum finite.
   */
  lemma IterationsInRange(p: Kernel, i: int, tiles: nat)
    requires p.Launchable() && i >= 0
    ensures InRange(p.el, p.ScaledScores(i), RowAfter(p, i, tiles), TileStart(p, tiles), TileStart(p, tiles + 1))
    ensures TileStart(p, tiles + 1) - TileStart(p, tiles) + 1 == p.blockN + 1
  {
    RowAfterExact(p, i, tiles);
    NextMaxFinite(p, i, tiles);
    TileOrder(p, tiles);
    StepInRange(p.el, p.ScaledScores(i), RowAfter(p, i, tiles), TileStart(p, tiles), TileStart(p, tiles + 1));
  }

  // ----- From all visited tiles to the reference ---------------------------------------------------

  /** Keys that the early stop skips are masked for every row of the block. */
  lemma SkippedKeysMasked(p: Kernel, startM: nat, i: int, j: int)
    requires p.Launchable() && startM * p.blockM <= i < (startM + 1) * p.blockM
    requires EndN(p, startM) <= j < p.seqlenK
    ensures p.ScaledScores(i)(j).NegInf?
  {
  }

  /** And no tile is visited in vain: the last row of the row block sees the tile's first key. */
  lemma VisitedTileSeen(p: Kernel, startM: nat, tiles: nat)
    requires p.Launchable() && TileStart(p, tiles) < EndN(p, startM)
    ensures 0 <= TileStart(p, tiles) < p.seqlenK
    ensures p.Reference().allowed((startM + 1) * p.blockM - 1, TileStart(p, tiles))
  {
    assert TileStart(p, tiles) >= 0 by { Cxx.ProductOrder(0, tiles, p.blockN); }
  }

  function WeightedColumn(p: Kernel, i: int, c: int): Vector
    requires p.Launchable()
  {
    Products(Weight(p.el, p.ScaledScores(i)), Column(p.LoadV(), c))
  }

  lemma ReferenceWeights(p: Kernel, i: int)
    requires p.Launchable() && 0 <= i < p.seqlenQ
    ensures Agree(p.seqlenK, Weight(p.el, p.ScaledScores(i)), p.Reference().Weights(i))
  {
    forall j | 0 <= j < p.seqlenK
      ensures Weight(p.el, p.ScaledScores(i))(j) == p.Reference().Weights(i)(j)
    {
      p.ScoreMatches(i, j);
    }
  }

  lemma LoadedValues(p: Kernel, c: int)
    requires p.Launchable() && 0 <= c < p.headdim
    ensures Agree(p.seqlenK, Column(p.LoadV(), c), Column(p.v, c))
  {
    forall j | 0 <= j < p.seqlenK ensures Column(p.LoadV(), c)(j) == Column(p.v, c)(j) {
      assert p.LoadV()(j, c) == p.Load(p.v, j, c, p.seqlenK, p.EvenM() && p.EvenN());
    }
  }

  /** A function vanishing outside the visited real keys sums alike over visited tiles and over all keys. */
  lemma SumOverTiles(p: Kernel, startM: nat, i: int, tiles: nat, f: Vector)
    requires p.Launchable() && startM * p.blockM <= i < (startM + 1) * p.blockM
    requires TileStart(p, tiles) >= EndN(p, startM)
    requires tiles > 0 ==> TileStart(p, tiles - 1) < EndN(p, startM)
    requires forall j :: ExpExt(p.el, p.ScaledScores(i)(j)) == 0.0 ==> f(j) == 0.0
    ensures Sum(0, TileStart(p, tiles), f) == Sum(0, p.seqlenK, f)
  {
    var n := TileStart(p, tiles);
    if p.seqlenK <= n {
      forall j | p.seqlenK <= j < n ensures f(j) == 0.0 {
        p.TailMasked(i, j, tiles);
      }
      SumSupport(0, p.seqlenK, n, f);
    } else {
      forall j | n <= j < p.seqlenK ensures f(j) == 0.0 {
        SkippedKeysMasked(p, startM, i, j);
      }
      SumSupport(0, n, p.seqlenK, f);
    }
  }

  lemma DenominatorMatches(p: Kernel, startM: nat, i: int, tiles: nat)
    requires p.Launchable() && startM * p.blockM <= i < (startM + 1) * p.blockM && i < p.seqlenQ
    requires TileStart(p, tiles) >= EndN(p, startM)
    requires tiles > 0 ==> TileStart(p, tiles - 1) < EndN(p, startM)
    ensures Sum(0, TileStart(p, tiles), Weight(p.el, p.ScaledScores(i))) == p.Reference().Denominator(i)
  {
    SumOverTiles(p, startM, i, tiles, Weight(p.el, p.ScaledScores(i)));
    ReferenceWeights(p, i);
    SumCongruence(0, p.seqlenK, Weight(p.el, p.ScaledScores(i)), p.Reference().Weights(i));
  }

  lemma NumeratorMatches(p: Kernel, startM: nat, i: int, tiles: nat, c: int)
    requires p.Launchable() && startM * p.blockM <= i < (startM + 1) * p.blockM && i < p.seqlenQ && 0 <= c < p.headdim
    requires TileStart(p, tiles) >= EndN(p, startM)
    requires tiles > 0 ==> TileStart(p, tiles - 1) < EndN(p, startM)
    ensures Sum(0, TileStart(p, tiles), WeightedColumn(p, i, c))
         == Inner(p.seqlenK, p.Reference().Weights(i), Column(p.v, c))
  {
    SumOverTiles(p, startM, i, tiles, WeightedColumn(p, i, c));
    ReferenceWeights(p, i);
    LoadedValues(p, c);
    InnerCongruence(p.seqlenK, Weight(p.el, p.ScaledScores(i)), Column(p.LoadV(), c),
                    p.Reference().Weights(i), Column(p.v, c));
  }

  // ----- The kernel -------------------------------------------------------------------------------

  /** The normalised output row that a finished state stores. */
  function StoredOutput(p: Kernel, st: RowState): Vector
    requires st.lse.Fin?
  {
    ScaleRow(st.acc, Rescale(p.el, st.m, st.lse.val))
  }

  lemma FinishedRow(p: Kernel, startM: nat, i: int, tiles: nat, c: int)
    requires p.Launchable() && startM * p.blockM <= i < (startM + 1) * p.blockM && i < p.seqlenQ && 0 <= c < p.headdim
    requires tiles > 0 && TileStart(p, tiles) >= EndN(p, startM) > TileStart(p, tiles - 1)
    ensures StoredOutput(p, RowAfter(p, i, tiles))(c) == p.Reference().Output(i, c)
  {
    hide TileStart, Exact, RowAfter, EndN, p.ScaledScores, p.LoadV, Inner, Sum, Rescale;
    var st, a, n := RowAfter(p, i, tiles), p.Reference(), TileStart(p, tiles);
    var s, v := p.ScaledScores(i), p.LoadV();
    RowAfterExact(p, i, tiles);
    DenominatorMatches(p, startM, i, tiles);
    NumeratorMatches(p, startM, i, tiles, c);
    FinalScale(p.el, s, v, st, n, c);
    a.OutputFromWeights(i, c);
    Quotient(StoredOutput(p, st)(c), a.Denominator(i), Inner(a.seqlenK, a.Weights(i), Column(a.v, c)));
  }

  /** Without a bias the kernel scales the tile maximum instead of the tile. */
  lemma ScaledMax(p: Kernel, i: int, lo: int, hi: int)
    requires p.Launchable() && p.biasKind.NoBias?
    ensures TileMax(p.ScaledScores(i), lo, hi) == ScaleExt(TileMax(p.MaskedDots(i), lo, hi), p.softmaxScale)
  {
    forall j | lo <= j < hi
      ensures p.ScaledScores(i)(j) == ScaleExt(p.MaskedDots(i)(j), p.softmaxScale)
    {
      assert p.LoadBias(i, j) == 0.0;
    }
    TileMaxScale(p.MaskedDots(i), p.ScaledScores(i), p.softmaxScale, lo, hi);
  }

  lemma RowInBlock(p: Kernel, startM: nat, r: nat)
    requires r < p.blockM
    ensures 0 <= startM * p.blockM <= startM * p.blockM + r < (startM + 1) * p.blockM
  {
  }

  lemma FinishedOutputs(p: Kernel, startM: nat, i: int, tiles: nat)
    requires p.Launchable() && startM * p.blockM <= i < (startM + 1) * p.blockM && i < p.seqlenQ
    requires tiles > 0 && TileStart(p, tiles) >= EndN(p, startM) > TileStart(p, tiles - 1)
    ensures var st := RowAfter(p, i, tiles);
            && st.lse.val == p.Reference().Lse(i)
            && forall c | 0 <= c < p.headdim :: StoredOutput(p, st)(c) == p.Reference().Output(i, c)
  {
    forall c | 0 <= c < p.headdim
      ensures StoredOutput(p, RowAfter(p, i, tiles))(c) == p.Reference().Output(i, c)
    {
      FinishedRow(p, startM, i, tiles, c);
    }
    FinishedLse(p, startM, i, tiles);
  }

  lemma FinishedLse(p: Kernel, startM: nat, i: int, tiles: nat)
    requires p.Launchable() && startM * p.blockM <= i < (startM + 1) * p.blockM && i < p.seqlenQ
    requires tiles > 0 && TileStart(p, tiles) >= EndN(p, startM) > TileStart(p, tiles - 1)
    ensures RowAfter(p, i, tiles).lse.val == p.Reference().Lse(i)
  {
    hide TileStart, Exact, RowAfter, p.ScaledScores, p.LoadV, Inner, Sum, Rescale;
    var s, v, st, n := p.ScaledScores(i), p.LoadV(), RowAfter(p, i, tiles), TileStart(p, tiles);
    RowAfterExact(p, i, tiles);
    DenominatorMatches(p, startM, i, tiles);
    FinalScale(p.el, s, v, st, n, 0);
  }

  lemma RowBegins(p: Kernel, i: int)
    requires p.Launchable() && i >= 0
    ensures TileStart(p, 0) == 0 && RowAfter(p, i, 0) == InitialRow()
  {
  }

  lemma NextRow(p: Kernel, i: int, tiles: nat)
    requires p.Launchable() && i >= 0
    requires NextMax(p.ScaledScores(i), RowAfter(p, i, tiles), TileStart(p, tiles), TileStart(p, tiles + 1)).Fin?
    ensures RowAfter(p, i, tiles + 1)
         == Step(p.el, p.ScaledScores(i), p.LoadV(), RowAfter(p, i, tiles),
                 TileStart(p, tiles), TileStart(p, tiles + 1))
  {
  }

  /** Row `r` of program `startM`: the loop over key tiles and the final normalisation. */
  method FwdRow(p: Kernel, startM: nat, r: nat) returns (lse: real, o: Vector)
    requires p.Launchable() && r < p.blockM
    ensures var i := startM * p.blockM + r;
            i < p.seqlenQ ==> lse == p.Reference().Lse(i)
                              && forall c | 0 <= c < p.headdim :: o(c) == p.Reference().Output(i, c)
  {
    hide p.Reference, Accumulate, TileMax, TileProbs, Sum, ScaleRow, p.ScaledScores, p.MaskedDots, p.LoadV,
         Problem.Output, Problem.Lse, ExpExt, SubExt, MaxExt, ScaleExt;
    var i := startM * p.blockM + r;
    RowInBlock(p, startM, r);
    hide RowAfter, TileStart;
    RowBegins(p, i);
    var lseI, mI: Ext := NegInf, NegInf;
    var accO := Zeros();
    var endN := if !p.isCausal then p.seqlenK
                else if (startM + 1) * p.blockM < p.seqlenK then (startM + 1) * p.blockM else p.seqlenK;
    var startN := 0;
    ghost var tiles: nat := 0;
    while startN < endN
      invariant startN == TileStart(p, tiles)
      invariant RowState(mI, lseI, accO) == RowAfter(p, i, tiles)
      invariant tiles > 0 ==> TileStart(p, tiles - 1) < endN
      decreases endN - startN
    {
      NextMaxFinite(p, i, tiles);
      NextRow(p, i, tiles);
      TileOrder(p, tiles);
      var hi := startN + p.blockN;
      var mIJ: Ext;
      if p.biasKind.NoBias? {
        // the maximum is scaled after it is taken
        mIJ := MaxExt(ScaleExt(TileMax(p.MaskedDots(i), startN, hi), p.softmaxScale), lseI);
        ScaledMax(p, i, startN, hi);
      } else {
        mIJ := MaxExt(TileMax(p.ScaledScores(i), startN, hi), lseI);
      }
      var probs := TileProbs(p.el, p.ScaledScores(i), mIJ.val);
      var lIJ := Sum(startN, hi, probs);
      var accOScale := ExpExt(p.el, SubExt(mI, mIJ));
      accO := Accumulate(accO, accOScale, probs, p.LoadV(), startN, hi);
      var lINew := ExpExt(p.el, SubExt(lseI, mIJ)) + lIJ;
      mI := mIJ;
      lseI := Fin(mIJ.val + p.el.log(lINew));
      startN := hi;
      tiles := tiles + 1;
    }
    var oScale := ExpExt(p.el, SubExt(mI, lseI));
    o := ScaleRow(accO, oScale);
    lse := lseI.val;
    assert o == StoredOutput(p, RowAfter(p, i, tiles));
    if i < p.seqlenQ {
      FinishedOutputs(p, startM, i, tiles);
    }
  }

  ghost predicate RowStored(p: Kernel, outs: array2<real>, lses: array<real>, i: nat)
    reads outs, lses
    requires i < lses.Length && i < outs.Length0 && p.headdim <= outs.Length1
  {
    && lses[i] == p.Reference().Lse(i)
    && forall c | 0 <= c < p.headdim :: outs[i, c] == p.Reference().Output(i, c)
  }

  /** One row of a program, stored under the row and column masks. */
  method StoreRow(p: Kernel, startM: nat, r: nat, i: nat, outs: array2<real>, lses: array<real>)
    requires p.Launchable() && r < p.blockM && i == startM * p.blockM + r
    requires outs.Length0 == p.seqlenQ && outs.Length1 == p.headdim && i < lses.Length
    modifies outs, lses
    ensures i < p.seqlenQ ==> RowStored(p, outs, lses, i)
    ensures forall i': nat :: i' < p.seqlenQ && i' < lses.Length && i' != i && old(RowStored(p, outs, lses, i'))
                              ==> RowStored(p, outs, lses, i')
  {
    hide Kernel.Reference, Kernel.Launchable, Problem.Output, Problem.Lse;
    var lse, o := FwdRow(p, startM, r);
    lses[i] := lse;
    if i < p.seqlenQ {
      forall c | 0 <= c < p.headdim {
        outs[i, c] := o(c);
      }
    }
  }

  /** One program of the launch grid: the block of rows that starts at `base`. */
  method FwdProgram(p: Kernel, startM: nat, base: nat, outs: array2<real>, lses: array<real>)
    requires p.Launchable() && base == startM * p.blockM
    requires outs.Length0 == p.seqlenQ && outs.Length1 == p.headdim
    requires base + p.blockM <= lses.Length
    requires forall i: nat :: i < base && i < p.seqlenQ ==> RowStored(p, outs, lses, i)
    modifies outs, lses
    ensures forall i: nat :: i < base + p.blockM && i < p.seqlenQ ==> RowStored(p, outs, lses, i)
  {
    hide p.Reference, RowStored;
    for r := 0 to p.blockM
      invariant forall i: nat :: i < base + r && i < p.seqlenQ ==> RowStored(p, outs, lses, i)
    {
      StoreRow(p, startM, r, base + r, outs, lses);
    }
  }

  /**
    The whole launch: every real query row gets its reference output and log-sum-exp. The log-sum-exp
    buffer is padded to whole row blocks, as the launch wrapper allocates it.
   */
  method FwdKernel(p: Kernel, outs: array2<real>, lses: array<real>)
    requires p.Launchable()
    requires outs.Length0 == p.seqlenQ && outs.Length1 == p.headdim
    requires Cdiv(p.seqlenQ, p.blockM) * p.blockM <= lses.Length
    modifies outs, lses
    ensures forall i: nat :: i < p.seqlenQ ==> i < lses.Length && RowStored(p, outs, lses, i)
  {
    hide p.Reference, RowStored;
    var programs := Cdiv(p.seqlenQ, p.blockM);
    var base := 0;
    for startM := 0 to programs
      invariant base == startM * p.blockM
      invariant forall i: nat :: i < base && i < p.seqlenQ ==> i < lses.Length && RowStored(p, outs, lses, i)
    {
      Cxx.ProductOrder(startM + 1, programs, p.blockM);
      assert (startM + 1) * p.blockM == base + p.blockM;
      FwdProgram(p, startM, base, outs, lses);
      base := base + p.blockM;
    }
  }
}
