/** `GameField.spawn` and `GameField.reset` (2048.py:21-37). The random
    draws are parameters: the roll of `randrange(100)` that decides between a
    2 and a 4, and the index `choice` takes in the list of free cells. */
module Spawning {
  import opened RowMove
  import opened Field
  import opened Errors

  /** A value of `randrange(100)`. */
  type Roll = r: nat | r < 100

  /** The outcome of the two random draws of one spawn: `roll` decides the
      tile, `pick` selects entry `pick % n` of the `n` free cells, so that
      every free cell can be chosen. */
  datatype Chance = Chance(roll: Roll, pick: nat)

  /** `4 if randrange(100) > 89 else 2` (2048.py:33). */
  function NewTile(roll: Roll): nat
  {
    if roll > 89 then 4 else 2
  }

  /** The free cells of row `i` from column `j` on, left to right. */
  function RowEmpties(row: Row, i: nat, j: nat): (r: seq<(nat, nat)>)
    requires j <= |row|
    ensures forall p :: p in r <==> p.0 == i && j <= p.1 < |row| && row[p.1] == 0
    decreases |row| - j
  {
    if j == |row| then []
    else (if row[j] == 0 then [(i, j)] else []) + RowEmpties(row, i, j + 1)
  }

  /** The free cells in row-major order, from row `i` on: the list
      `[(i, j) for i in range(size) for j in range(size) if cells[i][j] == 0]`
      of 2048.py:36. */
  function EmptyCellsFrom(cells: Grid, i: nat): (r: seq<(nat, nat)>)
    requires i <= |cells|
    ensures forall p :: p in r <==> i <= p.0 < |cells| && p.1 < |cells[p.0]| && cells[p.0][p.1] == 0
    decreases |cells| - i
  {
    if i == |cells| then []
    else RowEmpties(cells[i], i, 0) + EmptyCellsFrom(cells, i + 1)
  }

  function EmptyCells(cells: Grid): seq<(nat, nat)>
  {
    EmptyCellsFrom(cells, 0)
  }

  /** The list of free cells is empty exactly when the board is full. */
  lemma EmptyCellsListsFree(cells: Grid)
    ensures |EmptyCells(cells)| > 0 <==> HasEmpty(cells)
  {
    if HasEmpty(cells) {
      var i, j :| 0 <= i < |cells| && 0 <= j < |cells[i]| && cells[i][j] == 0;
      assert (i, j) in EmptyCells(cells);
    }
    if |EmptyCells(cells)| > 0 {
      var p := EmptyCells(cells)[0];
      assert p in EmptyCells(cells);
      assert cells[p.0][p.1] == 0;
    }
  }

  /** `after` is `before` with the free cell `(i, j)` set to `v` and every
      other cell as it was. */
  predicate SpawnedAt(before: Grid, after: Grid, i: nat, j: nat, v: nat)
  {
    && |after| == |before|
    && (forall a :: 0 <= a < |before| ==> |after[a]| == |before[a]|)
    && i < |before| && j < |before[i]|
    && before[i][j] == 0
    && after[i][j] == v
    && (forall a, b :: 0 <= a < |before| && 0 <= b < |before[a]| && (a, b) != (i, j) ==>
          after[a][b] == before[a][b])
  }

  /** `spawn` (2048.py:31-37): a 2 or a 4 written into a free cell; `choice`
      on an empty list raises `IndexError` when the board is full. */
  function Spawn(cells: Grid, chance: Chance): (r: Result<Grid>)
    ensures r.Raised? <==> !HasEmpty(cells)
    ensures r.Raised? ==> r.fault == IndexError
    ensures r.Ok? ==> exists i, j :: SpawnedAt(cells, r.value, i, j, NewTile(chance.roll))
  {
    var free := EmptyCells(cells);
    EmptyCellsListsFree(cells);
    if |free| == 0 then
      Raised(IndexError)
    else
      var p := free[chance.pick % |free|];
      assert p in free;
      var row: Row := cells[p.0][p.1 := NewTile(chance.roll)];
      var after := cells[p.0 := row];
      assert SpawnedAt(cells, after, p.0, p.1, NewTile(chance.roll));
      Ok(after)
  }

  /** The occupied cells of a board. */
  function Occupied(g: Grid): set<(nat, nat)>
  {
    set i: nat, j: nat | i < |g| && j < |g[i]| && g[i][j] != 0 :: (i, j)
  }

  /** A successful spawn adds exactly one tile, a 2 or a 4, and keeps a square
      board of valid tiles square and valid. */
  lemma SpawnAddsOneTile(cells: Grid, chance: Chance)
    requires Spawn(cells, chance).Ok?
    ensures |Occupied(Spawn(cells, chance).value)| == |Occupied(cells)| + 1
    ensures NewTile(chance.roll) == 2 || NewTile(chance.roll) == 4
    ensures IsSquare(cells) ==> IsSquare(Spawn(cells, chance).value)
    ensures ValidGrid(cells) ==> ValidGrid(Spawn(cells, chance).value)
  {
    var after := Spawn(cells, chance).value;
    var i: nat, j: nat :| SpawnedAt(cells, after, i, j, NewTile(chance.roll));
    SpawnedAtOccupies(cells, after, i, j, NewTile(chance.roll));
    if ValidGrid(cells) {
      SpawnedAtValid(cells, after, i, j, NewTile(chance.roll));
    }
  }

  /** Filling a free cell with a tile occupies exactly one more cell. */
  lemma SpawnedAtOccupies(before: Grid, after: Grid, i: nat, j: nat, v: nat)
    requires SpawnedAt(before, after, i, j, v) && v != 0
    ensures |Occupied(after)| == |Occupied(before)| + 1
  {
    assert Occupied(after) == Occupied(before) + {(i, j)};
    assert (i, j) !in Occupied(before);
  }

  /** Filling a free cell of a valid board with a 2 or a 4 keeps it valid. */
  lemma SpawnedAtValid(before: Grid, after: Grid, i: nat, j: nat, v: nat)
    requires SpawnedAt(before, after, i, j, v) && (v == 2 || v == 4)
    requires ValidGrid(before)
    ensures ValidGrid(after)
  {
    assert IsPowerOfTwo(v / 2);
    forall a | 0 <= a < |after|
      ensures ValidTiles(after[a])
    {
      assert ValidTiles(before[a]);
    }
  }

  /** A `size` x `size` board of empty cells (2048.py:22). */
  function EmptyBoard(size: nat): (g: Grid)
    ensures IsSquare(g) && |g| == size
    ensures forall i, j :: 0 <= i < size && 0 <= j < size ==> g[i][j] == 0
  {
    seq(size, _ => Zeros(size))
  }

  /** `reset` (2048.py:21-24): an empty board and two spawns. */
  function Reset(size: nat, first: Chance, second: Chance): Result<Grid>
  {
    var board :- Spawn(EmptyBoard(size), first);
    Spawn(board, second)
  }

  /** A reset board of size at least 2 is square, holds exactly two tiles
      and only valid ones; a smaller board has no room for both spawns and
      the second `choice` (or the first, for size 0) raises `IndexError`. */
  lemma ResetOutcome(size: nat, first: Chance, second: Chance)
    ensures size >= 2 ==> Reset(size, first, second).Ok?
    ensures size < 2 ==> Reset(size, first, second) == Raised(IndexError)
    ensures Reset(size, first, second).Ok? ==>
      var g := Reset(size, first, second).value;
      |g| == size && IsSquare(g) && ValidGrid(g) && |Occupied(g)| == 2
  {
    var empty := EmptyBoard(size);
    assert Occupied(empty) == {};
    assert ValidGrid(empty);
    if size == 0 {
      assert !HasEmpty(empty);
    } else {
      assert empty[0][0] == 0;
      var board := Spawn(empty, first).value;
      SpawnAddsOneTile(empty, first);
      var i: nat, j: nat :| SpawnedAt(empty, board, i, j, NewTile(first.roll));
      if size == 1 {
        assert i == 0 && j == 0 && board[0][0] != 0;
        assert !HasEmpty(board);
      } else {
        var other := if j == 0 then 1 else 0;
        assert board[i][other] == 0;
        SpawnAddsOneTile(board, second);
      }
    }
  }
}
