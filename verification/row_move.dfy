/** One row of the board moved to the left: `GameField.move_row_left` with its
    inner `tighten` and `merge`, and the movability test `row_is_left_movable`.
    A row is a sequence of tile values, 0 standing for an empty cell. */
module RowMove {

  type Row = seq<nat>

  /** The sum of the tile values of a row. */
  function Sum(row: Row): nat
  {
    if |row| == 0 then 0 else row[0] + Sum(row[1..])
  }

  /** The non-zero values of `row`, in their original order. */
  function NonZeros(row: Row): (r: Row)
    ensures |r| <= |row|
    ensures forall k :: 0 <= k < |r| ==> r[k] != 0 && r[k] in row
    ensures r == [] <==> forall k :: 0 <= k < |row| ==> row[k] == 0
    ensures |r| == |row| <==> forall k :: 0 <= k < |row| ==> row[k] != 0
  {
    if |row| == 0 then []
    else if row[0] != 0 then
      var rest := NonZeros(row[1..]);
      assert forall k :: 0 <= k < |rest| ==> rest[k] in row[1..];
      [row[0]] + rest
    else
      NonZeros(row[1..])
  }

  /** `n` empty cells. */
  function Zeros(n: nat): (r: Row)
    ensures |r| == n
  {
    seq(n, _ => 0)
  }

  /** Every empty cell is followed only by empty cells: the tiles sit at the front. */
  predicate Compact(row: Row)
  {
    forall i, j :: 0 <= i < j < |row| && row[i] == 0 ==> row[j] == 0
  }

  /** `tighten` (2048.py:48-52): the tiles moved together to the front, in
      their order, and the row padded with empty cells to its old length. */
  function Tighten(row: Row): (r: Row)
    ensures |r| == |row|
    ensures Compact(r)
    ensures NonZeros(r) == NonZeros(row)
  {
    var kept := NonZeros(row);
    var padded := kept + Zeros(|row| - |kept|);
    NonZerosConcat(kept, Zeros(|row| - |kept|));
    NonZerosOfTiles(kept);
    padded
  }

  /** `merge` (2048.py:54-69): scanning from the left, an adjacent equal pair
      `x, x` becomes `0, 2x` and the right cell of the pair is not looked at again. */
  function Merge(row: Row): (r: Row)
    ensures |r| == |row|
    decreases |row|
  {
    if |row| >= 2 && row[0] == row[1] then [0, 2 * row[0]] + Merge(row[2..])
    else if |row| == 0 then []
    else [row[0]] + Merge(row[1..])
  }

  /** The loop of `merge` (2048.py:56-69) with its `pair` flag, shown to
      compute `Merge`. */
  method MergeLoop(row: Row) returns (newRow: Row)
    ensures newRow == Merge(row)
  {
    var pair := false;
    newRow := [];
    var i := 0;
    while i < |row|
      invariant 0 <= i <= |row|
      invariant pair ==> 0 < i < |row|
      invariant newRow + Pending(row, i, pair) == Merge(row)
      decreases |row| - i
    {
      PendingStep(row, i, pair);
      var cell;
      if pair {
        cell := 2 * row[i];
        pair := false;
      } else if i + 1 < |row| && row[i] == row[i + 1] {
        cell := 0;
        pair := true;
      } else {
        cell := row[i];
      }
      Regroup(newRow, [cell], Pending(row, i + 1, pair));
      newRow := newRow + [cell];
      i := i + 1;
    }
  }

  /** What the loop of `MergeLoop` still has to append at index `i`: with
      `pair` set, cell `i` is the right half of a pair and becomes the double. */
  function Pending(row: Row, i: nat, pair: bool): Row
    requires i <= |row| && (pair ==> i < |row|)
  {
    if pair then [2 * row[i]] + Merge(row[i + 1..]) else Merge(row[i..])
  }

  /** One iteration of `MergeLoop` emits one cell of `Merge`. */
  lemma PendingStep(row: Row, i: nat, pair: bool)
    requires i < |row|
    ensures pair ==> Pending(row, i, pair) == [2 * row[i]] + Pending(row, i + 1, false)
    ensures !pair && i + 1 < |row| && row[i] == row[i + 1] ==>
      Pending(row, i, pair) == [0] + Pending(row, i + 1, true)
    ensures !pair && !(i + 1 < |row| && row[i] == row[i + 1]) ==>
      Pending(row, i, pair) == [row[i]] + Pending(row, i + 1, false)
  {
    assert row[i..][1..] == row[i + 1..];
    if i + 1 < |row| && row[i] == row[i + 1] {
      assert row[i..][2..] == row[i + 2..];
      assert [0, 2 * row[i]] + Merge(row[i + 2..]) == [0] + ([2 * row[i + 1]] + Merge(row[i + 2..]));
    }
  }

  /** Concatenation regrouped. */
  lemma Regroup(a: Row, b: Row, c: Row)
    ensures a + b + c == a + (b + c)
  {
  }

  /** `move_row_left` (2048.py:47-73): tighten, merge, tighten again. */
  function MoveRowLeft(row: Row): Row
  {
    Tighten(Merge(Tighten(row)))
  }

  /** `change(i)` of `row_is_left_movable` (2048.py:95-100): an empty cell
      before a tile, or a tile followed by an equal tile. */
  predicate Change(row: Row, i: nat)
    requires i + 1 < |row|
  {
    Gap(row, i) || (row[i] != 0 && row[i + 1] == row[i])
  }

  /** An empty cell directly before a tile. */
  predicate Gap(row: Row, i: nat)
    requires i + 1 < |row|
  {
    row[i] == 0 && row[i + 1] != 0
  }

  /** `any(change(i) for i in range(len(row) - 1))`, scanning from index `i`. */
  function AnyChange(row: Row, i: nat): (r: bool)
    ensures r <==> exists k :: i <= k && k + 1 < |row| && Change(row, k)
    decreases |row| - i
  {
    if i + 1 >= |row| then false
    else Change(row, i) || AnyChange(row, i + 1)
  }

  /** `row_is_left_movable` (2048.py:94-101). */
  predicate RowIsLeftMovable(row: Row)
  {
    AnyChange(row, 0)
  }

  /** Two adjacent equal tiles. */
  predicate HasEqualNeighbours(row: Row)
  {
    exists k :: 0 <= k && k + 1 < |row| && row[k] != 0 && row[k] == row[k + 1]
  }

  /** A tile value the game can hold: empty, or a power of two no smaller than 2. */
  predicate IsPowerOfTwo(n: nat)
  {
    n == 1 || (n >= 2 && n % 2 == 0 && IsPowerOfTwo(n / 2))
  }

  predicate ValidTile(v: nat)
  {
    v == 0 || (v >= 2 && IsPowerOfTwo(v))
  }

  predicate ValidTiles(row: Row)
  {
    forall k :: 0 <= k < |row| ==> ValidTile(row[k])
  }

  // ---------------------------------------------------------------------
  // Helper facts about NonZeros, Sum and Compact

  /** The tiles of two joined rows are the tiles of the first followed by
      those of the second: together with the single-cell case this fixes the
      order in which `NonZeros` keeps the tiles. */
  lemma {:induction false} NonZerosConcat(a: Row, b: Row)
    ensures NonZeros(a + b) == NonZeros(a) + NonZeros(b)
    decreases |a|
  {
    if |a| == 0 {
      assert a + b == b;
    } else {
      assert (a + b)[1..] == a[1..] + b;
      NonZerosConcat(a[1..], b);
    }
  }

  /** Every tile of the row is kept, as often as it occurs, and only the
      empty cells are dropped. */
  lemma {:induction false} NonZerosKeepsTiles(row: Row)
    ensures multiset(NonZeros(row)) == multiset(row)[0 := 0]
    decreases |row|
  {
    if |row| > 0 {
      assert row == [row[0]] + row[1..];
      NonZerosKeepsTiles(row[1..]);
    }
  }

  lemma {:induction false} NonZerosOfTiles(row: Row)
    requires forall k :: 0 <= k < |row| ==> row[k] != 0
    ensures NonZeros(row) == row
    decreases |row|
  {
    if |row| > 0 {
      NonZerosOfTiles(row[1..]);
    }
  }

  lemma {:induction false} SumConcat(a: Row, b: Row)
    ensures Sum(a + b) == Sum(a) + Sum(b)
    decreases |a|
  {
    if |a| == 0 {
      assert a + b == b;
    } else {
      assert (a + b)[1..] == a[1..] + b;
      SumConcat(a[1..], b);
    }
  }

  lemma {:induction false} SumOfNonZeros(row: Row)
    ensures Sum(NonZeros(row)) == Sum(row)
    decreases |row|
  {
    if |row| > 0 {
      SumOfNonZeros(row[1..]);
      SumConcat([row[0]], NonZeros(row[1..]));
    }
  }

  lemma {:induction false} SumOfZeros(n: nat)
    ensures Sum(Zeros(n)) == 0
    decreases n
  {
    if n > 0 {
      assert Zeros(n)[1..] == Zeros(n - 1);
      SumOfZeros(n - 1);
    }
  }

  /** A compact row is fixed by its length and its tiles. */
  lemma {:induction false} CompactUnique(a: Row, b: Row)
    requires Compact(a) && Compact(b)
    requires |a| == |b|
    requires NonZeros(a) == NonZeros(b)
    ensures a == b
    decreases |a|
  {
    if |a| > 0 {
      CompactLead(a);
      CompactLead(b);
      if NonZeros(a) == [] {
        assert forall k :: 0 <= k < |a| ==> a[k] == 0 && b[k] == 0;
      } else {
        assert NonZeros(a) == [a[0]] + NonZeros(a[1..]);
        assert NonZeros(b) == [b[0]] + NonZeros(b[1..]);
        assert NonZeros(a[1..]) == NonZeros(a)[1..];
        assert NonZeros(a[1..]) == NonZeros(b[1..]);
        CompactUnique(a[1..], b[1..]);
        assert a == [a[0]] + a[1..];
        assert b == [b[0]] + b[1..];
      }
    }
  }

  /** A compact row starts with an empty cell exactly when it holds no tile. */
  lemma CompactLead(row: Row)
    requires Compact(row) && |row| > 0
    ensures row[0] == 0 <==> NonZeros(row) == []
  {
    if row[0] == 0 {
      assert forall k :: 0 <= k < |row| ==> row[k] == 0;
    }
  }

  /** Adjacent empty-before-tile pairs are the only way a row fails to be compact. */
  lemma NoGapIsCompact(row: Row)
    requires forall k :: 0 <= k && k + 1 < |row| ==> !Gap(row, k)
    ensures Compact(row)
  {
    forall i, j | 0 <= i < j < |row| && row[i] == 0
      ensures row[j] == 0
    {
      ZeroRunTo(row, i, j);
    }
  }

  lemma {:induction false} ZeroRunTo(row: Row, i: nat, j: nat)
    requires forall k :: 0 <= k && k + 1 < |row| ==> !Gap(row, k)
    requires i <= j < |row| && row[i] == 0
    ensures row[j] == 0
    decreases j - i
  {
    if i < j {
      assert !Gap(row, i);
      ZeroRunTo(row, i + 1, j);
    }
  }

  // ---------------------------------------------------------------------
  // Properties of tighten

  /** Tightening keeps the tiles in order and pads with empty cells. */
  lemma TightenLayout(row: Row)
    ensures Tighten(row)[..|NonZeros(row)|] == NonZeros(row)
    ensures forall k :: |NonZeros(row)| <= k < |row| ==> Tighten(row)[k] == 0
    ensures Sum(Tighten(row)) == Sum(row)
  {
    var kept := NonZeros(row);
    assert Tighten(row) == kept + Zeros(|row| - |kept|);
    SumConcat(kept, Zeros(|row| - |kept|));
    SumOfZeros(|row| - |kept|);
    SumOfNonZeros(row);
  }

  /** A row is left unchanged by tightening exactly when it is already compact. */
  lemma TightenFixedIffCompact(row: Row)
    ensures Tighten(row) == row <==> Compact(row)
  {
    if Compact(row) {
      CompactUnique(Tighten(row), row);
    }
  }

  /** Tightening twice is tightening once. */
  lemma TightenIdempotent(row: Row)
    ensures Tighten(Tighten(row)) == Tighten(row)
  {
    TightenFixedIffCompact(Tighten(row));
  }

  // ---------------------------------------------------------------------
  // Properties of merge

  /** Merging keeps the total of the row: `x + x == 0 + 2x`. */
  lemma {:induction false} MergeKeepsSum(row: Row)
    ensures Sum(Merge(row)) == Sum(row)
    decreases |row|
  {
    if |row| >= 2 && row[0] == row[1] {
      MergeKeepsSum(row[2..]);
      SumConcat([0, 2 * row[0]], Merge(row[2..]));
      assert row[1..][1..] == row[2..];
    } else if |row| > 0 {
      MergeKeepsSum(row[1..]);
      SumConcat([row[0]], Merge(row[1..]));
    }
  }

  /** Merging never adds a tile, and removes one whenever two equal tiles are adjacent. */
  lemma MergeCountsTiles(row: Row)
    ensures |NonZeros(Merge(row))| <= |NonZeros(row)|
    ensures HasEqualNeighbours(row) ==> |NonZeros(Merge(row))| < |NonZeros(row)|
  {
    MergeNeverAddsTiles(row);
    if HasEqualNeighbours(row) {
      MergeRemovesTile(row);
    }
  }

  lemma {:induction false} MergeNeverAddsTiles(row: Row)
    ensures |NonZeros(Merge(row))| <= |NonZeros(row)|
    decreases |row|
  {
    if |row| >= 2 && row[0] == row[1] {
      var rest := row[2..];
      MergeNeverAddsTiles(rest);
      NonZerosConcat([0, 2 * row[0]], Merge(rest));
      assert row == [row[0], row[1]] + rest;
      NonZerosConcat([row[0], row[1]], rest);
    } else if |row| > 0 {
      var rest := row[1..];
      MergeNeverAddsTiles(rest);
      NonZerosConcat([row[0]], Merge(rest));
      assert row == [row[0]] + rest;
      NonZerosConcat([row[0]], rest);
    }
  }

  lemma {:induction false} MergeRemovesTile(row: Row)
    requires HasEqualNeighbours(row)
    ensures |NonZeros(Merge(row))| < |NonZeros(row)|
    decreases |row|
  {
    var k :| 0 <= k && k + 1 < |row| && row[k] != 0 && row[k] == row[k + 1];
    if row[0] == row[1] {
      var rest := row[2..];
      NonZerosConcat([0, 2 * row[0]], Merge(rest));
      assert row == [row[0], row[1]] + rest;
      NonZerosConcat([row[0], row[1]], rest);
      if row[0] == 0 {
        assert rest[k - 2] != 0 && rest[k - 2] == rest[k - 1];
        MergeRemovesTile(rest);
      } else {
        MergeNeverAddsTiles(rest);
      }
    } else {
      var rest := row[1..];
      assert rest[k - 1] != 0 && rest[k - 1] == rest[k];
      MergeRemovesTile(rest);
      NonZerosConcat([row[0]], Merge(rest));
      assert row == [row[0]] + rest;
      NonZerosConcat([row[0]], rest);
    }
  }

  /** Without two adjacent equal tiles, merging changes nothing (adjacent
      empty cells pair up as `0, 2 * 0`, which is again `0, 0`). */
  lemma {:induction false} MergeWithoutPairs(row: Row)
    requires !HasEqualNeighbours(row)
    ensures Merge(row) == row
    decreases |row|
  {
    if |row| >= 2 && row[0] == row[1] {
      assert row[0] == 0;
      MergeWithoutPairs(row[2..]);
      assert row == [row[0], row[1]] + row[2..];
    } else if |row| > 0 {
      MergeWithoutPairs(row[1..]);
      assert row == [row[0]] + row[1..];
    }
  }

  /** Cell `k` of the merged row `m` is cell `k` of `row`, empty, or the
      double of a tile whose equal left neighbour has been emptied. */
  predicate MergedCell(row: Row, m: Row, k: nat)
    requires k < |row| == |m|
  {
    || m[k] == row[k]
    || m[k] == 0
    || (0 < k && row[k - 1] == row[k] && m[k - 1] == 0 && m[k] == 2 * row[k])
  }

  /** Each tile merges at most once: every cell of the merged row is the cell
      it was, empty, or the double of a tile whose left neighbour was its equal
      and has been emptied. No cell ever holds more than twice its old value. */
  lemma {:induction false} MergeCellwise(row: Row)
    ensures forall k :: 0 <= k < |row| ==> MergedCell(row, Merge(row), k)
    decreases |row|
  {
    if |row| >= 2 && row[0] == row[1] {
      var rest := row[2..];
      MergeCellwise(rest);
      var m := Merge(row);
      assert m == [0, 2 * row[0]] + Merge(rest);
      forall k | 2 <= k < |row|
        ensures MergedCell(row, m, k)
      {
        assert MergedCell(rest, Merge(rest), k - 2);
        assert m[k] == Merge(rest)[k - 2] && row[k] == rest[k - 2];
        if k - 2 > 0 {
          assert m[k - 1] == Merge(rest)[k - 3] && row[k - 1] == rest[k - 3];
        }
      }
    } else if |row| > 0 {
      var rest := row[1..];
      MergeCellwise(rest);
      var m := Merge(row);
      assert m == [row[0]] + Merge(rest);
      forall k | 1 <= k < |row|
        ensures MergedCell(row, m, k)
      {
        assert MergedCell(rest, Merge(rest), k - 1);
        assert m[k] == Merge(rest)[k - 1] && row[k] == rest[k - 1];
        if k - 1 > 0 {
          assert m[k - 1] == Merge(rest)[k - 2] && row[k - 1] == rest[k - 2];
        }
      }
    }
  }

  // ---------------------------------------------------------------------
  // Properties of move_row_left

  /** `move_row_left` keeps the length and the total of the row, leaves it
      compact, and never adds a tile. */
  lemma MoveRowLeftShape(row: Row)
    ensures |MoveRowLeft(row)| == |row|
    ensures Compact(MoveRowLeft(row))
    ensures Sum(MoveRowLeft(row)) == Sum(row)
    ensures |NonZeros(MoveRowLeft(row))| <= |NonZeros(row)|
  {
    var t := Tighten(row);
    TightenLayout(row);
    MergeKeepsSum(t);
    MergeCountsTiles(t);
    TightenLayout(Merge(t));
  }

  /** The movability test agrees exactly with the move: a row is left-movable
      precisely when moving it left changes it. */
  lemma MovableIffMoveChanges(row: Row)
    ensures RowIsLeftMovable(row) <==> MoveRowLeft(row) != row
  {
    var t := Tighten(row);
    if RowIsLeftMovable(row) {
      var k :| 0 <= k && k + 1 < |row| && Change(row, k);
      if !Compact(row) {
        assert MoveRowLeft(row) != row;
      } else {
        assert row[k] != 0 && row[k + 1] == row[k];
        assert HasEqualNeighbours(row);
        TightenFixedIffCompact(row);
        MergeCountsTiles(row);
        assert |NonZeros(MoveRowLeft(row))| < |NonZeros(row)|;
      }
    } else {
      forall k: nat | k + 1 < |row|
        ensures !Gap(row, k)
      {
        assert !Change(row, k);
      }
      assert !HasEqualNeighbours(row) by {
        if HasEqualNeighbours(row) {
          var k :| 0 <= k && k + 1 < |row| && row[k] != 0 && row[k] == row[k + 1];
          assert Change(row, k);
        }
      }
      NoGapIsCompact(row);
      TightenFixedIffCompact(row);
      MergeWithoutPairs(row);
    }
  }

  /** A row that could move keeps at least one empty cell after moving, so a
      tile can be spawned after a successful move. */
  lemma MovedRowHasRoom(row: Row)
    requires RowIsLeftMovable(row)
    ensures exists k :: 0 <= k < |MoveRowLeft(row)| && MoveRowLeft(row)[k] == 0
  {
    var r := MoveRowLeft(row);
    MoveRowLeftShape(row);
    var k :| 0 <= k && k + 1 < |row| && Change(row, k);
    if row[k] == 0 {
      assert |NonZeros(row)| < |row|;
    } else {
      if Compact(row) {
        TightenFixedIffCompact(row);
        assert HasEqualNeighbours(row);
        MergeCountsTiles(row);
        assert |NonZeros(r)| < |NonZeros(row)|;
      } else {
        var i, j :| 0 <= i < j < |row| && row[i] == 0 && row[j] != 0;
        assert |NonZeros(row)| < |row|;
      }
    }
    assert |NonZeros(r)| < |r|;
  }

  /** Every cell of the moved row is a valid tile when every cell of the row was. */
  lemma MoveRowLeftKeepsTiles(row: Row)
    requires ValidTiles(row)
    ensures ValidTiles(MoveRowLeft(row))
  {
    TightenKeepsTiles(row);
    MergeKeepsTiles(Tighten(row));
    TightenKeepsTiles(Merge(Tighten(row)));
  }

  lemma MergeKeepsTiles(row: Row)
    requires ValidTiles(row)
    ensures ValidTiles(Merge(row))
  {
    MergeCellwise(row);
    forall k | 0 <= k < |row|
      ensures ValidTile(Merge(row)[k])
    {
      var v := Merge(row)[k];
      assert MergedCell(row, Merge(row), k);
      if v == 2 * row[k] && row[k] != 0 {
        assert v / 2 == row[k] && v % 2 == 0;
      }
    }
  }

  lemma TightenKeepsTiles(row: Row)
    requires ValidTiles(row)
    ensures ValidTiles(Tighten(row))
  {
    var kept := NonZeros(row);
    assert Tighten(row) == kept + Zeros(|row| - |kept|);
    forall k | 0 <= k < |kept|
      ensures ValidTile(kept[k])
    {
      var j :| 0 <= j < |row| && row[j] == kept[k];
    }
  }

  /** The worked rows of the game's rules: pairs merge once, from the left,
      and a merged tile does not merge again in the same move. */
  lemma MoveRowLeftExamples()
    ensures MoveRowLeft([2, 2, 4]) == [4, 4, 0]
    ensures MoveRowLeft([2, 2, 2, 2]) == [4, 4, 0, 0]
    ensures MoveRowLeft([0, 0, 2, 2]) == [4, 0, 0, 0]
    ensures MoveRowLeft([2, 0, 2, 4]) == [4, 4, 0, 0]
  {
    ExampleTwoTwoFour();
    ExampleFourTwos();
    ExampleTrailingPair();
    ExampleGapPair();
  }

  /** `[2, 2, 4]` moves to `[4, 4, 0]`: pairs merge from the left. */
  lemma ExampleTwoTwoFour()
    ensures MoveRowLeft([2, 2, 4]) == [4, 4, 0]
  {
    ExampleTwoTwoFourTiles();
    ExampleTwoTwoFourMerge();
    MoveRowLeftExample([2, 2, 4], [2, 2, 4], [2, 2, 4], [0, 4, 4], [4, 4], [4, 4, 0]);
  }

  /** The tiles of the row and of the merged row of `ExampleTwoTwoFour`. */
  lemma ExampleTwoTwoFourTiles()
    ensures NonZeros([2, 2, 4]) == [2, 2, 4]
    ensures NonZeros([0, 4, 4]) == [4, 4]
  {
  }

  /** The merge of the tightened row of `ExampleTwoTwoFour`, and the padded rows. */
  lemma ExampleTwoTwoFourMerge()
    ensures Merge([2, 2, 4]) == [0, 4, 4]
    ensures [2, 2, 4] == [2, 2, 4] + Zeros(0)
    ensures [4, 4, 0] == [4, 4] + Zeros(1)
  {
  }

  /** `[2, 2, 2, 2]` moves to `[4, 4, 0, 0]`: two pairs merge into two tiles, not one. */
  lemma ExampleFourTwos()
    ensures MoveRowLeft([2, 2, 2, 2]) == [4, 4, 0, 0]
  {
    ExampleFourTwosTiles();
    ExampleFourTwosMerge();
    MoveRowLeftExample([2, 2, 2, 2], [2, 2, 2, 2], [2, 2, 2, 2], [0, 4, 0, 4], [4, 4], [4, 4, 0, 0]);
  }

  /** The tiles of the row and of the merged row of `ExampleFourTwos`. */
  lemma ExampleFourTwosTiles()
    ensures NonZeros([2, 2, 2, 2]) == [2, 2, 2, 2]
    ensures NonZeros([0, 4, 0, 4]) == [4, 4]
  {
  }

  /** The merge of the tightened row of `ExampleFourTwos`, and the padded rows. */
  lemma ExampleFourTwosMerge()
    ensures Merge([2, 2, 2, 2]) == [0, 4, 0, 4]
    ensures [2, 2, 2, 2] == [2, 2, 2, 2] + Zeros(0)
    ensures [4, 4, 0, 0] == [4, 4] + Zeros(2)
  {
  }

  /** `[0, 0, 2, 2]` moves to `[4, 0, 0, 0]`: tiles slide over empty cells before they merge. */
  lemma ExampleTrailingPair()
    ensures MoveRowLeft([0, 0, 2, 2]) == [4, 0, 0, 0]
  {
    ExampleTrailingPairTiles();
    ExampleTrailingPairMerge();
    MoveRowLeftExample([0, 0, 2, 2], [2, 2], [2, 2, 0, 0], [0, 4, 0, 0], [4], [4, 0, 0, 0]);
  }

  /** The tiles of the row and of the merged row of `ExampleTrailingPair`. */
  lemma ExampleTrailingPairTiles()
    ensures NonZeros([0, 0, 2, 2]) == [2, 2]
    ensures NonZeros([0, 4, 0, 0]) == [4]
  {
  }

  /** The merge of the tightened row of `ExampleTrailingPair`, and the padded rows. */
  lemma ExampleTrailingPairMerge()
    ensures Merge([2, 2, 0, 0]) == [0, 4, 0, 0]
    ensures [2, 2, 0, 0] == [2, 2] + Zeros(2)
    ensures [4, 0, 0, 0] == [4] + Zeros(3)
  {
  }

  /** `[2, 0, 2, 4]` moves to `[4, 4, 0, 0]`: a merged tile does not merge again in the same move. */
  lemma ExampleGapPair()
    ensures MoveRowLeft([2, 0, 2, 4]) == [4, 4, 0, 0]
  {
    ExampleGapPairTiles();
    ExampleGapPairMerge();
    MoveRowLeftExample([2, 0, 2, 4], [2, 2, 4], [2, 2, 4, 0], [0, 4, 4, 0], [4, 4], [4, 4, 0, 0]);
  }

  /** The tiles of the row and of the merged row of `ExampleGapPair`. */
  lemma ExampleGapPairTiles()
    ensures NonZeros([2, 0, 2, 4]) == [2, 2, 4]
    ensures NonZeros([0, 4, 4, 0]) == [4, 4]
  {
  }

  /** The merge of the tightened row of `ExampleGapPair`, and the padded rows. */
  lemma ExampleGapPairMerge()
    ensures Merge([2, 2, 4, 0]) == [0, 4, 4, 0]
    ensures [2, 2, 4, 0] == [2, 2, 4] + Zeros(1)
    ensures [4, 4, 0, 0] == [4, 4] + Zeros(2)
  {
  }

  /** The three stages of a move, given stage by stage: the tiles of the
      row and of the merged row, each followed by empty cells. */
  lemma MoveRowLeftExample(row: Row, tiles: Row, t: Row, m: Row, mergedTiles: Row, r: Row)
    requires NonZeros(row) == tiles && t == tiles + Zeros(|row| - |tiles|)
    requires Merge(t) == m
    requires NonZeros(m) == mergedTiles && r == mergedTiles + Zeros(|m| - |mergedTiles|)
    ensures MoveRowLeft(row) == r
  {
    TightenExample(row, tiles, t);
    TightenExample(m, mergedTiles, r);
    assert MoveRowLeft(row) == Tighten(Merge(Tighten(row)));
  }

  /** A tightened row is the tiles of its input followed by empty cells. */
  lemma TightenExample(row: Row, tiles: Row, t: Row)
    requires NonZeros(row) == tiles && t == tiles + Zeros(|row| - |tiles|)
    ensures Tighten(row) == t
  {
  }

  /** The worked rows of the movability test. */
  lemma MovableExamples()
    ensures !RowIsLeftMovable([2, 4, 0, 0])
    ensures RowIsLeftMovable([0, 2, 4, 0])
  {
    assert Change([0, 2, 4, 0], 0);
  }
}
