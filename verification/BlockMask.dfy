/**
  The column-compressed encoding of a 0-1 block mask: for each column its nonzero rows in order, each
  carrying two bits that say whether the column is the row's first or last nonzero one.
 */
module BlockMask {
  import opened StableSorting

  /** Integers as sort keys. */
  function Keys(xs: seq<int>): (keys: seq<real>)
    ensures |keys| == |xs| && forall i | 0 <= i < |xs| :: keys[i] == xs[i] as real
  {
    seq(|xs|, i requires 0 <= i < |xs| => xs[i] as real)
  }

  /** A strictly increasing sequence of `n` numbers below `n` is the identity. */
  lemma {:induction false} IncreasingIsIdentity(s: seq<int>, n: nat, k: nat)
    requires |s| == n && k < n
    requires forall i | 0 <= i < n :: 0 <= s[i] < n
    requires forall i, j | 0 <= i < j < n :: s[i] < s[j]
    ensures s[k] == k
  {
    AtLeast(s, k, k);
    AtMost(s, n - 1, n - 1 - k);
  }

  lemma {:induction false} AtLeast(s: seq<int>, k: nat, d: nat)
    requires d <= k < |s| && s[0] >= 0
    requires forall i, j | 0 <= i < j < |s| :: s[i] < s[j]
    ensures s[d] >= d
  {
    if d > 0 {
      AtLeast(s, k, d - 1);
    }
  }

  lemma {:induction false} AtMost(s: seq<int>, top: nat, d: nat)
    requires d <= top == |s| - 1 && s[top] <= top
    requires forall i, j | 0 <= i < j < |s| :: s[i] < s[j]
    ensures s[top - d] <= top - d
  {
    if d > 0 {
      AtMost(s, top, d - 1);
    }
  }

  /** Sorting a permutation by its values inverts it. */
  lemma ArgsortInverts(p: seq<nat>, n: nat)
    requires Permutation(p, n)
    ensures var inverse := StableSort(Keys(p), false);
            && Permutation(inverse, n)
            && (forall k | 0 <= k < n :: inverse[p[k]] == k)
            && (forall v | 0 <= v < n :: p[inverse[v]] == v)
  {
    var inverse := StableSort(Keys(p), false);
    var values := seq(n, v requires 0 <= v < n => p[inverse[v]]);
    forall v | 0 <= v < n ensures p[inverse[v]] == v {
      IncreasingIsIdentity(values, n, v);
    }
    forall k | 0 <= k < n ensures inverse[p[k]] == k {
      assert p[inverse[p[k]]] == p[k];
    }
  }

  // ----- The mask and its encoding ------------------------------------------------------------------------

  /** Zeros and ones, with at least one column. */
  ghost predicate IsMask(mask: seq<seq<int>>, ncol: nat) {
    && ncol > 0
    && forall r | 0 <= r < |mask| :: |mask[r]| == ncol && forall c | 0 <= c < ncol :: mask[r][c] == 0 || mask[r][c] == 1
  }

  predicate IsFirst(row: seq<int>, c: nat)
    requires c < |row|
  {
    row[c] != 0 && forall d | 0 <= d < c :: row[d] == 0
  }

  predicate IsLast(row: seq<int>, c: nat)
    requires c < |row|
  {
    row[c] != 0 && forall d | c < d < |row| :: row[d] == 0
  }

  /** The entry of a nonzero block. */
  function Entry(row: seq<int>, r: nat, c: nat): int
    requires c < |row|
  {
    4 * r + (if IsLast(row, c) then 2 else 0) + (if IsFirst(row, c) then 1 else 0)
  }

  /** Column `c` lists its nonzero rows in ascending order, flagged, and nothing but -1 after them. */
  ghost predicate ListsColumn(mask: seq<seq<int>>, c: nat, list: seq<int>)
    requires forall r | 0 <= r < |mask| :: c < |mask[r]|
  {
    && |list| == |mask|
    && (forall k | 0 <= k < |list| && list[k] != -1 ::
          && 0 <= list[k] / 4 < |mask|
          && mask[list[k] / 4][c] != 0
          && list[k] == Entry(mask[list[k] / 4], list[k] / 4, c))
    && (forall k, l | 0 <= k < l < |list| && list[l] != -1 :: list[k] != -1 && list[k] / 4 < list[l] / 4)
    && (forall r | 0 <= r < |mask| && mask[r][c] != 0 ::
          exists k :: 0 <= k < |list| && list[k] != -1 && list[k] / 4 == r)
  }

  ghost predicate Encodes(mask: seq<seq<int>>, ncol: nat, converted: seq<seq<int>>)
    requires IsMask(mask, ncol)
  {
    |converted| == ncol && forall c | 0 <= c < ncol :: ListsColumn(mask, c, converted[c])
  }

  // ----- Decoding -----------------------------------------------------------------------------------------

  predicate Lists(list: seq<int>, r: nat) {
    exists k | 0 <= k < |list| :: list[k] != -1 && list[k] / 4 == r
  }

  function DecodedRow(converted: seq<seq<int>>, r: nat): (row: seq<int>)
    ensures |row| == |converted|
  {
    seq(|converted|, c requires 0 <= c < |converted| => if Lists(converted[c], r) then 1 else 0)
  }

  function Decode(converted: seq<seq<int>>, nrow: nat): (mask: seq<seq<int>>)
    ensures |mask| == nrow
  {
    seq(nrow, r requires 0 <= r < nrow => DecodedRow(converted, r))
  }

  /** Decoding an encoding returns the mask. */
  lemma DecodeInverts(mask: seq<seq<int>>, ncol: nat, converted: seq<seq<int>>)
    requires IsMask(mask, ncol) && Encodes(mask, ncol, converted)
    ensures Decode(converted, |mask|) == mask
  {
    forall r | 0 <= r < |mask| ensures Decode(converted, |mask|)[r] == mask[r] {
      forall c | 0 <= c < ncol ensures DecodedRow(converted, r)[c] == mask[r][c] {
        DecodeCell(mask, c, converted[c], r);
      }
    }
  }

  lemma DecodeCell(mask: seq<seq<int>>, c: nat, list: seq<int>, r: nat)
    requires forall r | 0 <= r < |mask| :: c < |mask[r]|
    requires r < |mask| && ListsColumn(mask, c, list)
    ensures Lists(list, r) <==> mask[r][c] != 0
  {
  }

  /** The two low bits of an entry are its flags. */
  lemma EntryBits(row: seq<int>, r: nat, c: nat)
    requires c < |row|
    ensures Entry(row, r, c) / 4 == r
    ensures Entry(row, r, c) % 2 == 1 <==> IsFirst(row, c)
    ensures Entry(row, r, c) / 2 % 2 == 1 <==> IsLast(row, c)
    ensures Entry(row, r, c) % 2 == 1 <==> row[c] != 0 && forall d | 0 <= d < c :: row[d] == 0
    ensures Entry(row, r, c) / 2 % 2 == 1 <==> row[c] != 0 && forall d | c < d < |row| :: row[d] == 0
  {
    Ends(row, c);
    hide IsFirst, IsLast;
    Bits(r, IsLast(row, c), IsFirst(row, c));
  }

  lemma Bits(r: nat, second: bool, lowest: bool)
    ensures var entry := 4 * r + (if second then 2 else 0) + (if lowest then 1 else 0);
            entry / 4 == r && (entry % 2 == 1 <==> lowest) && (entry / 2 % 2 == 1 <==> second)
  {
  }

  lemma Ends(row: seq<int>, c: nat)
    requires c < |row|
    ensures IsFirst(row, c) <==> row[c] != 0 && forall d | 0 <= d < c :: row[d] == 0
    ensures IsLast(row, c) <==> row[c] != 0 && forall d | c < d < |row| :: row[d] == 0
  {
  }

  /** There is only one encoding of a mask. */
  lemma EncodingUnique(mask: seq<seq<int>>, ncol: nat, a: seq<seq<int>>, b: seq<seq<int>>)
    requires IsMask(mask, ncol) && Encodes(mask, ncol, a) && Encodes(mask, ncol, b)
    ensures a == b
  {
    forall c | 0 <= c < ncol ensures a[c] == b[c] {
      forall k | 0 <= k < |mask| ensures a[c][k] == b[c][k] {
        ListUnique(mask, c, a[c], b[c], k);
      }
    }
  }

  lemma {:induction false} ListUnique(mask: seq<seq<int>>, c: nat, a: seq<int>, b: seq<int>, k: nat)
    requires forall r | 0 <= r < |mask| :: c < |mask[r]|
    requires ListsColumn(mask, c, a) && ListsColumn(mask, c, b) && k < |mask|
    ensures a[k] == b[k]
    decreases k
  {
    forall l | 0 <= l < k ensures a[l] == b[l] {
      ListUnique(mask, c, a, b, l);
    }
    NoSmaller(mask, c, a, b, k);
    NoSmaller(mask, c, b, a, k);
  }

  /** With equal beginnings, the next row of one list cannot come before the other's. */
  lemma NoSmaller(mask: seq<seq<int>>, c: nat, a: seq<int>, b: seq<int>, k: nat)
    requires forall r | 0 <= r < |mask| :: c < |mask[r]|
    requires ListsColumn(mask, c, a) && ListsColumn(mask, c, b) && k < |mask|
    requires forall l | 0 <= l < k :: a[l] == b[l]
    ensures a[k] != -1 ==> b[k] != -1 && b[k] / 4 <= a[k] / 4
  {
    if a[k] != -1 {
      var l :| 0 <= l < |b| && b[l] != -1 && b[l] / 4 == a[k] / 4;
    }
  }

  // ----- The conversion -----------------------------------------------------------------------------------

  function Column(mask: seq<seq<int>>, c: nat): (keys: seq<int>)
    requires forall r | 0 <= r < |mask| :: c < |mask[r]|
    ensures |keys| == |mask| && forall r | 0 <= r < |mask| :: keys[r] == mask[r][c]
  {
    seq(|mask|, r requires 0 <= r < |mask| => mask[r][c])
  }

  /** `nonzero_sorted_rowidx[:, c]` */
  function SortedRows(mask: seq<seq<int>>, c: nat): (p: seq<nat>)
    requires forall r | 0 <= r < |mask| :: c < |mask[r]|
    ensures Permutation(p, |mask|)
  {
    StableSort(Keys(Column(mask, c)), true)
  }

  /** `last_nonzero_col_per_row[r]`; the last column of a row of zeros. */
  function LastColumn(row: seq<int>): (c: nat)
    requires row != []
    ensures c < |row|
  {
    StableSort(Keys(row), false)[|row| - 1]
  }

  /** `first_nonzero_col_per_row[r]`; the first column of a row of zeros. */
  function FirstColumn(row: seq<int>): (c: nat)
    requires row != []
    ensures c < |row|
  {
    StableSort(Keys(row), true)[0]
  }

  /** For a nonzero block, the sorts find the row's last and first nonzero column. */
  lemma FlagsFound(row: seq<int>, c: nat)
    requires c < |row| && row[c] != 0 && forall d | 0 <= d < |row| :: row[d] == 0 || row[d] == 1
    ensures LastColumn(row) == c <==> IsLast(row, c)
    ensures FirstColumn(row) == c <==> IsFirst(row, c)
  {
    if c != LastColumn(row) {
      EndsOfSort(row, c);
    }
    if c != FirstColumn(row) {
      EndsOfSort(row, c);
    }
    EndsOfSort(row, LastColumn(row));
    EndsOfSort(row, FirstColumn(row));
    forall d: nat | d < |row| && row[d] != 0 ensures d <= LastColumn(row) && FirstColumn(row) <= d {
      EndsOfSort(row, d);
    }
  }

  lemma EndsOfSort(row: seq<int>, d: nat)
    requires d < |row|
    ensures d == LastColumn(row) || Before(Keys(row), false, d, LastColumn(row))
    ensures d == FirstColumn(row) || Before(Keys(row), true, FirstColumn(row), d)
  {
    var up, down := StableSort(Keys(row), false), StableSort(Keys(row), true);
    assert d in up && d in down;
    var k :| 0 <= k < |up| && up[k] == d;
    var l :| 0 <= l < |down| && down[l] == d;
  }

  /** The encoding of the block at sorted position `k` of column `c`. */
  function Cell(mask: seq<seq<int>>, c: nat, k: nat): int
    requires (forall r | 0 <= r < |mask| :: c < |mask[r]|) && k < |mask|
  {
    var r := SortedRows(mask, c)[k];
    if mask[r][c] == 0 then -1 else Entry(mask[r], r, c)
  }

  /** Cells in sorted order list the column. */
  lemma CellsList(mask: seq<seq<int>>, ncol: nat, c: nat, list: seq<int>)
    requires IsMask(mask, ncol) && c < ncol
    requires |list| == |mask| && forall k | 0 <= k < |mask| :: list[k] == Cell(mask, c, k)
    ensures ListsColumn(mask, c, list)
  {
    hide Entry;
    var p := SortedRows(mask, c);
    forall k | 0 <= k < |mask| ensures list[k] != -1 <==> mask[p[k]][c] != 0
      ensures list[k] != -1 ==> list[k] / 4 == p[k] && list[k] == Entry(mask[p[k]], p[k], c)
    {
      EntryBits(mask[p[k]], p[k], c);
    }
    hide Cell;
    forall k, l | 0 <= k < l < |mask| && mask[p[l]][c] != 0 ensures mask[p[k]][c] != 0 && p[k] < p[l] {
      assert Before(Keys(Column(mask, c)), true, p[k], p[l]);
    }
    hide SortedRows;
    forall r | 0 <= r < |mask| && mask[r][c] != 0
      ensures exists k :: 0 <= k < |list| && list[k] != -1 && list[k] / 4 == r
    {
      assert r in p;
      var k :| 0 <= k < |p| && p[k] == r;
      assert list[k] != -1;
    }
  }

  /** Some row's update goes to this cell. */
  predicate Hit(rows: seq<nat>, cols: seq<nat>, i: int, j: int)
    requires |rows| == |cols|
  {
    exists r | 0 <= r < |rows| :: rows[r] == i && cols[r] == j
  }

  /** `t[rows, cols] += v`: reads all cells, adds, and writes them back. */
  method AddAt(t: array2<int>, rows: seq<nat>, cols: seq<nat>, v: int)
    requires |rows| == |cols|
    requires forall r | 0 <= r < |rows| :: rows[r] < t.Length0 && cols[r] < t.Length1
    modifies t
    ensures forall i, j | 0 <= i < t.Length0 && 0 <= j < t.Length1 ::
              t[i, j] == old(t[i, j]) + if Hit(rows, cols, i, j) then v else 0
  {
    var sums: seq<int> := [];
    for r := 0 to |rows|
      invariant |sums| == r && forall x | 0 <= x < r :: sums[x] == t[rows[x], cols[x]] + v
    {
      sums := sums + [t[rows[r], cols[r]] + v];
    }
    for r := 0 to |rows|
      invariant forall x | 0 <= x < |rows| :: sums[x] == old(t[rows[x], cols[x]]) + v
      invariant forall i, j | 0 <= i < t.Length0 && 0 <= j < t.Length1 ::
                  t[i, j] == old(t[i, j]) + if Hit(rows[..r], cols[..r], i, j) then v else 0
    {
      t[rows[r], cols[r]] := sums[r];
      HitNext(rows, cols, r);
    }
    assert rows[..|rows|] == rows && cols[..|cols|] == cols;
  }

  lemma HitNext(rows: seq<nat>, cols: seq<nat>, r: nat)
    requires r < |rows| == |cols|
    ensures forall i, j :: Hit(rows[..r + 1], cols[..r + 1], i, j)
                      <==> Hit(rows[..r], cols[..r], i, j) || (rows[r] == i && cols[r] == j)
  {
    forall i, j
      ensures Hit(rows[..r + 1], cols[..r + 1], i, j) <==>
                Hit(rows[..r], cols[..r], i, j) || (rows[r] == i && cols[r] == j)
    {
      assert rows[..r + 1][r] == rows[r] && cols[..r + 1][r] == cols[r];
      if Hit(rows[..r], cols[..r], i, j) {
        var x :| 0 <= x < r && rows[..r][x] == i && cols[..r][x] == j;
        assert rows[..r + 1][x] == i && cols[..r + 1][x] == j;
      }
      if Hit(rows[..r + 1], cols[..r + 1], i, j) {
        var x :| 0 <= x < r + 1 && rows[..r + 1][x] == i && cols[..r + 1][x] == j;
        if x < r {
          assert rows[..r][x] == i && cols[..r][x] == j;
        }
      }
    }
  }

  /** Sorted positions of one chosen column per row. */
  ghost predicate PositionsOf(mask: seq<seq<int>>, ncol: nat, cols: seq<nat>, rows: seq<nat>)
    requires IsMask(mask, ncol)
  {
    && |cols| == |rows| == |mask|
    && forall r | 0 <= r < |mask| :: cols[r] < ncol && rows[r] < |mask| && SortedRows(mask, cols[r])[rows[r]] == r
  }

  /** The updated cells are pairwise distinct, so no update is lost: a cell is hit by its own row, if at all. */
  lemma CellsDistinct(mask: seq<seq<int>>, ncol: nat, cols: seq<nat>, rows: seq<nat>)
    requires IsMask(mask, ncol) && PositionsOf(mask, ncol, cols, rows)
    ensures forall r, r' | 0 <= r < r' < |mask| :: rows[r] != rows[r'] || cols[r] != cols[r']
    ensures forall c, k | 0 <= c < ncol && 0 <= k < |mask| ::
              Hit(rows, cols, k, c) <==> cols[SortedRows(mask, c)[k]] == c
  {
    forall c, k | 0 <= c < ncol && 0 <= k < |mask|
      ensures Hit(rows, cols, k, c) <==> cols[SortedRows(mask, c)[k]] == c
    {
      var r := SortedRows(mask, c)[k];
      if cols[r] == c {
        assert rows[r] == k;
      }
    }
  }

  /** `nonzero_sorted_rowidx.argsort(dim=0)` inverts the sort of every column. */
  ghost predicate Inverts(mask: seq<seq<int>>, ncol: nat, unsortedRowidx: seq<seq<nat>>)
    requires IsMask(mask, ncol)
  {
    && |unsortedRowidx| == ncol
    && forall c | 0 <= c < ncol ::
         && |unsortedRowidx[c]| == |mask|
         && forall r | 0 <= r < |mask| ::
              unsortedRowidx[c][r] < |mask| && SortedRows(mask, c)[unsortedRowidx[c][r]] == r
  }

  method SortColumns(mask: seq<seq<int>>, ncol: nat)
      returns (sortedRowidx: seq<seq<nat>>, unsortedRowidx: seq<seq<nat>>)
    requires IsMask(mask, ncol)
    ensures |sortedRowidx| == ncol && forall c | 0 <= c < ncol :: sortedRowidx[c] == SortedRows(mask, c)
    ensures Inverts(mask, ncol, unsortedRowidx)
  {
    sortedRowidx := seq(ncol, c requires 0 <= c < ncol => SortedRows(mask, c));
    unsortedRowidx := seq(ncol, c requires 0 <= c < ncol => StableSort(Keys(sortedRowidx[c]), false));
    forall c | 0 <= c < ncol
      ensures |unsortedRowidx[c]| == |mask|
      ensures forall r | 0 <= r < |mask| ::
                unsortedRowidx[c][r] < |mask| && SortedRows(mask, c)[unsortedRowidx[c][r]] == r
    {
      ArgsortInverts(SortedRows(mask, c), |mask|);
    }
  }

  /** `t[positions, cols] += v` for one chosen column per row. */
  method AddFlag(mask: seq<seq<int>>, ncol: nat, t: array2<int>, unsortedRowidx: seq<seq<nat>>, cols: seq<nat>, v: int)
    requires IsMask(mask, ncol) && Inverts(mask, ncol, unsortedRowidx)
    requires t.Length0 == |mask| && t.Length1 == ncol
    requires |cols| == |mask| && forall r | 0 <= r < |mask| :: cols[r] < ncol
    modifies t
    ensures forall k, c | 0 <= k < |mask| && 0 <= c < ncol ::
              t[k, c] == old(t[k, c]) + if cols[SortedRows(mask, c)[k]] == c then v else 0
  {
    var rows: seq<nat> := seq(|mask|, r requires 0 <= r < |mask| => unsortedRowidx[cols[r]][r]);
    CellsDistinct(mask, ncol, cols, rows);
    hide Hit, SortedRows, Inverts;
    AddAt(t, rows, cols, v);
  }

  /** `convert_blockmask` */
  method ConvertBlockmask(mask: seq<seq<int>>, ncol: nat) returns (converted: seq<seq<int>>)
    requires IsMask(mask, ncol)
    ensures Encodes(mask, ncol, converted)
    ensures Decode(converted, |mask|) == mask
  {
    hide Encodes, Inverts, Decode, SortedRows;
    var nrow := |mask|;
    var sortedRowidx, unsortedRowidx := SortColumns(mask, ncol);
    var lastCol: seq<nat> := seq(nrow, r requires 0 <= r < nrow => LastColumn(mask[r]));
    var firstCol: seq<nat> := seq(nrow, r requires 0 <= r < nrow => FirstColumn(mask[r]));
    hide LastColumn, FirstColumn;
    var nonzeroIdx := new int[nrow, ncol]((k, c) requires 0 <= k < nrow && 0 <= c < ncol => sortedRowidx[c][k] * 4);
    AddFlag(mask, ncol, nonzeroIdx, unsortedRowidx, lastCol, 2);
    AddFlag(mask, ncol, nonzeroIdx, unsortedRowidx, firstCol, 1);
    EraseZeros(mask, ncol, nonzeroIdx);
    converted := Transpose(mask, ncol, nonzeroIdx);
    DecodeInverts(mask, ncol, converted);
  }

  /** What a cell holds before cells of zero blocks are overwritten. */
  function Flagged(mask: seq<seq<int>>, ncol: nat, c: nat, k: nat): int
    requires (forall r | 0 <= r < |mask| :: |mask[r]| == ncol) && c < ncol && k < |mask|
  {
    var r := SortedRows(mask, c)[k];
    4 * r + (if LastColumn(mask[r]) == c then 2 else 0) + (if FirstColumn(mask[r]) == c then 1 else 0)
  }

  lemma CellFromFlagged(mask: seq<seq<int>>, ncol: nat, c: nat, k: nat)
    requires IsMask(mask, ncol) && c < ncol && k < |mask|
    ensures Cell(mask, c, k) == if mask[SortedRows(mask, c)[k]][c] == 0 then -1 else Flagged(mask, ncol, c, k)
  {
    var r := SortedRows(mask, c)[k];
    if mask[r][c] != 0 {
      FlagsFound(mask[r], c);
    }
  }

  /** `nonzero_idx[nonzero_val == 0] = -1` */
  method EraseZeros(mask: seq<seq<int>>, ncol: nat, nonzeroIdx: array2<int>)
    requires IsMask(mask, ncol) && nonzeroIdx.Length0 == |mask| && nonzeroIdx.Length1 == ncol
    requires forall k, c | 0 <= k < |mask| && 0 <= c < ncol :: nonzeroIdx[k, c] == Flagged(mask, ncol, c, k)
    modifies nonzeroIdx
    ensures forall k, c | 0 <= k < |mask| && 0 <= c < ncol :: nonzeroIdx[k, c] == Cell(mask, c, k)
  {
    hide Flagged, Cell;
    for c := 0 to ncol
      invariant forall k, d | 0 <= k < |mask| && 0 <= d < ncol ::
                  nonzeroIdx[k, d] == if d < c then Cell(mask, d, k) else Flagged(mask, ncol, d, k)
    {
      for k := 0 to |mask|
        invariant forall l, d | 0 <= l < |mask| && 0 <= d < ncol ::
                    nonzeroIdx[l, d] == if d < c || (d == c && l < k) then Cell(mask, d, l)
                      else Flagged(mask, ncol, d, l)
      {
        CellFromFlagged(mask, ncol, c, k);
        if mask[SortedRows(mask, c)[k]][c] == 0 {
          nonzeroIdx[k, c] := -1;
        }
      }
    }
  }

  /** `nonzero_idx.T.contiguous()` */
  method Transpose(mask: seq<seq<int>>, ncol: nat, nonzeroIdx: array2<int>) returns (converted: seq<seq<int>>)
    requires IsMask(mask, ncol) && nonzeroIdx.Length0 == |mask| && nonzeroIdx.Length1 == ncol
    requires forall k, c | 0 <= k < |mask| && 0 <= c < ncol :: nonzeroIdx[k, c] == Cell(mask, c, k)
    ensures Encodes(mask, ncol, converted)
  {
    hide Cell, ListsColumn;
    converted := [];
    for c := 0 to ncol
      invariant |converted| == c && forall d | 0 <= d < c :: ListsColumn(mask, d, converted[d])
    {
      var list := seq(|mask|, k requires 0 <= k < |mask| reads nonzeroIdx => nonzeroIdx[k, c]);
      CellsList(mask, ncol, c, list);
      converted := converted + [list];
    }
  }
}
