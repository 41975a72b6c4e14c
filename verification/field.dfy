/** The board of `GameField` (2048.py:13-122): the in-place transforms
    `transpose` and `invert`, the four moves built from `move_row_left`, and
    the four `can_move_*` tests. The board is a sequence of rows; the game
    only ever builds square boards. */
module Field {
  import opened RowMove

  type Grid = seq<Row>

  /** The four moves, named after the `move_*` methods they select. */
  datatype Direction = Up | Left | Down | Right

  predicate IsSquare(g: Grid)
  {
    forall i :: 0 <= i < |g| ==> |g[i]| == |g|
  }

  /** Every cell holds a valid tile value. */
  predicate ValidGrid(g: Grid)
  {
    forall i :: 0 <= i < |g| ==> ValidTiles(g[i])
  }

  /** Some cell is empty. */
  predicate HasEmpty(g: Grid)
  {
    exists i, j :: 0 <= i < |g| && 0 <= j < |g[i]| && g[i][j] == 0
  }

  /** The length of the shortest row, where `zip` stops. */
  function MinWidth(g: Grid): (w: nat)
    ensures forall i :: 0 <= i < |g| ==> w <= |g[i]|
    ensures |g| > 0 ==> exists i :: 0 <= i < |g| && w == |g[i]|
    ensures |g| == 0 ==> w == 0
    decreases |g|
  {
    if |g| == 0 then 0
    else if |g| == 1 then |g[0]|
    else
      var rest := MinWidth(g[1..]);
      var k :| 0 <= k < |g[1..]| && rest == |g[1..][k]|;
      assert rest == |g[k + 1]|;
      assert forall i :: 1 <= i < |g| ==> g[i] == g[1..][i - 1];
      if |g[0]| <= rest then |g[0]| else rest
  }

  /** `transpose` (2048.py:40-41): `zip(*cells)`, row `i` of the result
      collecting cell `i` of every row, for as many columns as the shortest row has. */
  function Transpose(g: Grid): Grid
  {
    var w := MinWidth(g);
    seq(w, i requires 0 <= i < w => seq(|g|, j requires 0 <= j < |g| => g[j][i]))
  }

  /** `row[::-1]`. */
  function Reverse(row: Row): Row
  {
    seq(|row|, k requires 0 <= k < |row| => row[|row| - 1 - k])
  }

  /** `invert` (2048.py:43-44): every row reversed. */
  function Invert(g: Grid): Grid
  {
    seq(|g|, i requires 0 <= i < |g| => Reverse(g[i]))
  }

  /** `move_left` (2048.py:75-76). */
  function MoveLeft(g: Grid): Grid
  {
    seq(|g|, i requires 0 <= i < |g| => MoveRowLeft(g[i]))
  }

  /** `move_right` (2048.py:78-81): invert, move left, invert back. */
  function MoveRight(g: Grid): Grid
  {
    Invert(MoveLeft(Invert(g)))
  }

  /** `move_up` (2048.py:83-86): transpose, move left, transpose back. */
  function MoveUp(g: Grid): Grid
  {
    Transpose(MoveLeft(Transpose(g)))
  }

  /** `move_down` (2048.py:88-91): transpose, move right, transpose back. */
  function MoveDown(g: Grid): Grid
  {
    Transpose(MoveRight(Transpose(g)))
  }

  function Move(g: Grid, d: Direction): Grid
  {
    match d
    case Up => MoveUp(g)
    case Left => MoveLeft(g)
    case Down => MoveDown(g)
    case Right => MoveRight(g)
  }

  /** `any(row_is_left_movable(row) for row in cells)`, from row `i` on. */
  function AnyRowMovable(g: Grid, i: nat): (r: bool)
    ensures r <==> exists k :: i <= k < |g| && RowIsLeftMovable(g[k])
    decreases |g| - i
  {
    if i >= |g| then false
    else RowIsLeftMovable(g[i]) || AnyRowMovable(g, i + 1)
  }

  /** `can_move_left` (2048.py:103-104). */
  predicate CanMoveLeft(g: Grid)
  {
    AnyRowMovable(g, 0)
  }

  /** `can_move_right` (2048.py:106-110): the left test on the inverted board. */
  predicate CanMoveRight(g: Grid)
  {
    CanMoveLeft(Invert(g))
  }

  /** `can_move_up` (2048.py:112-116): the left test on the transposed board. */
  predicate CanMoveUp(g: Grid)
  {
    CanMoveLeft(Transpose(g))
  }

  /** `can_move_down` (2048.py:118-122): the right test on the transposed board. */
  predicate CanMoveDown(g: Grid)
  {
    CanMoveRight(Transpose(g))
  }

  predicate CanMove(g: Grid, d: Direction)
  {
    match d
    case Up => CanMoveUp(g)
    case Left => CanMoveLeft(g)
    case Down => CanMoveDown(g)
    case Right => CanMoveRight(g)
  }

  /** The board as a `can_move_*` test leaves it: the tests transform the
      board in place, test, and transform it back. On a square board nothing
      has changed. */
  function CellsAfterCanMove(g: Grid, d: Direction): (r: Grid)
    ensures IsSquare(g) ==> r == g
  {
    match d
    case Left => g
    case Right =>
      InvertInvolution(g);
      Invert(Invert(g))
    case Up =>
      var r := Transpose(Transpose(g));
      assert IsSquare(g) ==> r == g by {
        if IsSquare(g) {
          TransposeInvolution(g);
        }
      }
      r
    case Down =>
      var r := Transpose(Invert(Invert(Transpose(g))));
      assert IsSquare(g) ==> r == g by {
        if IsSquare(g) {
          InvertInvolution(Transpose(g));
          TransposeInvolution(g);
        }
      }
      r
  }

  // ---------------------------------------------------------------------
  // The transforms are involutions

  lemma ReverseInvolution(row: Row)
    ensures Reverse(Reverse(row)) == row
  {
  }

  /** Inverting twice restores the board. */
  lemma InvertInvolution(g: Grid)
    ensures Invert(Invert(g)) == g
  {
    forall i | 0 <= i < |g|
      ensures Invert(Invert(g))[i] == g[i]
    {
      ReverseInvolution(g[i]);
    }
  }

  /** Transposing keeps a square board square, of the same size, with cell
      `(i, j)` taken from cell `(j, i)`. */
  lemma TransposeSquare(g: Grid)
    requires IsSquare(g)
    ensures |Transpose(g)| == |g| && IsSquare(Transpose(g))
    ensures forall i, j :: 0 <= i < |g| && 0 <= j < |g| ==> Transpose(g)[i][j] == g[j][i]
  {
    if |g| > 0 {
      assert MinWidth(g) == |g|;
    }
  }

  /** Transposing a square board twice restores it. */
  lemma TransposeInvolution(g: Grid)
    requires IsSquare(g)
    ensures Transpose(Transpose(g)) == g
  {
    TransposeSquare(g);
    var t := Transpose(g);
    TransposeSquare(t);
    forall i | 0 <= i < |g|
      ensures Transpose(t)[i] == g[i]
    {
      assert forall j :: 0 <= j < |g| ==> Transpose(t)[i][j] == t[j][i] == g[i][j];
    }
  }

  // ---------------------------------------------------------------------
  // Shape, tiles and empty cells through the transforms and moves

  lemma InvertKeepsBoard(g: Grid)
    ensures |Invert(g)| == |g|
    ensures forall i :: 0 <= i < |g| ==> |Invert(g)[i]| == |g[i]|
    ensures IsSquare(g) ==> IsSquare(Invert(g))
    ensures ValidGrid(g) ==> ValidGrid(Invert(g))
    ensures HasEmpty(g) ==> HasEmpty(Invert(g))
  {
    if HasEmpty(g) {
      var i, j :| 0 <= i < |g| && 0 <= j < |g[i]| && g[i][j] == 0;
      assert Invert(g)[i][|g[i]| - 1 - j] == 0;
    }
  }

  lemma TransposeKeepsBoard(g: Grid)
    requires IsSquare(g)
    ensures ValidGrid(g) ==> ValidGrid(Transpose(g))
    ensures HasEmpty(g) ==> HasEmpty(Transpose(g))
  {
    TransposeSquare(g);
    if HasEmpty(g) {
      var i, j :| 0 <= i < |g| && 0 <= j < |g[i]| && g[i][j] == 0;
      assert Transpose(g)[j][i] == 0;
    }
    if ValidGrid(g) {
      forall i | 0 <= i < |g|
        ensures ValidTiles(Transpose(g)[i])
      {
        forall j | 0 <= j < |g|
          ensures ValidTile(Transpose(g)[i][j])
        {
          assert ValidTiles(g[j]);
        }
      }
    }
  }

  lemma MoveLeftKeepsBoard(g: Grid)
    ensures |MoveLeft(g)| == |g|
    ensures forall i :: 0 <= i < |g| ==> |MoveLeft(g)[i]| == |g[i]|
    ensures IsSquare(g) ==> IsSquare(MoveLeft(g))
    ensures ValidGrid(g) ==> ValidGrid(MoveLeft(g))
  {
    forall i | 0 <= i < |g|
      ensures |MoveLeft(g)[i]| == |g[i]|
      ensures ValidTiles(g[i]) ==> ValidTiles(MoveLeft(g)[i])
    {
      MoveRowLeftShape(g[i]);
      if ValidTiles(g[i]) {
        MoveRowLeftKeepsTiles(g[i]);
      }
    }
  }

  lemma MoveRightKeepsBoard(g: Grid)
    ensures |MoveRight(g)| == |g|
    ensures IsSquare(g) ==> IsSquare(MoveRight(g))
    ensures ValidGrid(g) ==> ValidGrid(MoveRight(g))
  {
    InvertKeepsBoard(g);
    MoveLeftKeepsBoard(Invert(g));
    InvertKeepsBoard(MoveLeft(Invert(g)));
  }

  /** Every move keeps a square board square and of the same size, and keeps
      every cell a valid tile. */
  lemma MoveKeepsBoard(g: Grid, d: Direction)
    requires IsSquare(g)
    ensures |Move(g, d)| == |g| && IsSquare(Move(g, d))
    ensures ValidGrid(g) ==> ValidGrid(Move(g, d))
  {
    match d
    case Left => MoveLeftKeepsBoard(g);
    case Right => MoveRightKeepsBoard(g);
    case Up =>
      TransposeSquare(g);
      TransposeKeepsBoard(g);
      MoveLeftKeepsBoard(Transpose(g));
      TransposeSquare(MoveLeft(Transpose(g)));
      TransposeKeepsBoard(MoveLeft(Transpose(g)));
    case Down =>
      TransposeSquare(g);
      TransposeKeepsBoard(g);
      MoveRightKeepsBoard(Transpose(g));
      TransposeSquare(MoveRight(Transpose(g)));
      TransposeKeepsBoard(MoveRight(Transpose(g)));
  }

  // ---------------------------------------------------------------------
  // The movability tests agree with the moves

  /** `can_move_left` holds exactly when moving left changes the board. */
  lemma CanMoveLeftIff(g: Grid)
    ensures CanMoveLeft(g) <==> MoveLeft(g) != g
  {
    if CanMoveLeft(g) {
      var k :| 0 <= k < |g| && RowIsLeftMovable(g[k]);
      MovableIffMoveChanges(g[k]);
      assert MoveLeft(g)[k] != g[k];
    } else {
      forall k | 0 <= k < |g|
        ensures MoveLeft(g)[k] == g[k]
      {
        MovableIffMoveChanges(g[k]);
      }
    }
  }

  /** `can_move_right` holds exactly when moving right changes the board. */
  lemma CanMoveRightIff(g: Grid)
    ensures CanMoveRight(g) <==> MoveRight(g) != g
  {
    var v := Invert(g);
    CanMoveLeftIff(v);
    InvertInvolution(g);
    InvertInvolution(MoveLeft(v));
    if MoveRight(g) == g {
      assert Invert(MoveRight(g)) == MoveLeft(v);
    }
  }

  /** `can_move_up` holds exactly when moving up changes the square board. */
  lemma CanMoveUpIff(g: Grid)
    requires IsSquare(g)
    ensures CanMoveUp(g) <==> MoveUp(g) != g
  {
    var t := Transpose(g);
    TransposeSquare(g);
    CanMoveLeftIff(t);
    MoveLeftKeepsBoard(t);
    TransposeInvolution(g);
    TransposeInvolution(MoveLeft(t));
    if MoveUp(g) == g {
      assert Transpose(MoveUp(g)) == MoveLeft(t);
    }
  }

  /** `can_move_down` holds exactly when moving down changes the square board. */
  lemma CanMoveDownIff(g: Grid)
    requires IsSquare(g)
    ensures CanMoveDown(g) <==> MoveDown(g) != g
  {
    var t := Transpose(g);
    TransposeSquare(g);
    CanMoveRightIff(t);
    MoveRightKeepsBoard(t);
    TransposeInvolution(g);
    TransposeInvolution(MoveRight(t));
    if MoveDown(g) == g {
      assert Transpose(MoveDown(g)) == MoveRight(t);
    }
  }

  /** The movability test of every direction agrees exactly with its move:
      it holds precisely when the move would change the board. */
  lemma CanMoveIff(g: Grid, d: Direction)
    requires IsSquare(g)
    ensures CanMove(g, d) <==> Move(g, d) != g
  {
    match d
    case Left => CanMoveLeftIff(g);
    case Right => CanMoveRightIff(g);
    case Up => CanMoveUpIff(g);
    case Down => CanMoveDownIff(g);
  }

  /** Moving right is moving left seen in a mirror. */
  lemma MoveRightMirrorsLeft(g: Grid)
    ensures MoveRight(Invert(g)) == Invert(MoveLeft(g))
  {
    InvertInvolution(g);
  }

  /** A move the test allows leaves an empty cell for the next spawn. */
  lemma MoveLeavesRoom(g: Grid, d: Direction)
    requires IsSquare(g) && CanMove(g, d)
    ensures HasEmpty(Move(g, d))
  {
    match d
    case Left => MoveLeftLeavesRoom(g);
    case Right =>
      MoveLeftLeavesRoom(Invert(g));
      InvertKeepsBoard(MoveLeft(Invert(g)));
    case Up =>
      TransposeSquare(g);
      MoveLeftLeavesRoom(Transpose(g));
      MoveLeftKeepsBoard(Transpose(g));
      TransposeKeepsBoard(MoveLeft(Transpose(g)));
    case Down =>
      var t := Transpose(g);
      TransposeSquare(g);
      MoveLeftLeavesRoom(Invert(t));
      InvertKeepsBoard(MoveLeft(Invert(t)));
      MoveRightKeepsBoard(t);
      TransposeKeepsBoard(MoveRight(t));
  }

  lemma MoveLeftLeavesRoom(g: Grid)
    requires CanMoveLeft(g)
    ensures HasEmpty(MoveLeft(g))
  {
    var k :| 0 <= k < |g| && RowIsLeftMovable(g[k]);
    MovedRowHasRoom(g[k]);
    var j :| 0 <= j < |MoveRowLeft(g[k])| && MoveRowLeft(g[k])[j] == 0;
    assert MoveLeft(g)[k][j] == 0;
  }
}
