/** The turn logic of `Admin` (2048.py:186-253) as a pure step function:
    one call of the state method the game loop dispatches to, taking the key
    the state reads and the random draws of the spawns it performs, and
    returning the admin with its next state, or the exception it raises. */
module Controller {
  import opened Errors
  import opened RowMove
  import opened Field
  import opened Spawning
  import Input

  /** The states of the game loop, the strings `'init'`, `'game'`, `'win'`,
      `'over'` and `'exit'` of 2048.py:195-260. */
  datatype State = Init | Game | Win | Over | Exit

  /** The fields of `Admin` (2048.py:189-200) the turn logic reads and writes. */
  datatype Admin = Admin(
    size: nat,
    winNum: nat,
    state: State,
    win: bool,
    over: bool,
    score: nat,
    cells: Grid)

  /** The result of `Admin.move` and the board after it. */
  datatype Moved = Moved(moved: bool, cells: Grid)

  /** The admin as `is_over` leaves it, and the value `is_over` returns. */
  datatype OverCheck = OverCheck(admin: Admin, returned: Option<bool>)

  /** Some cell has reached `winNum`. */
  predicate Winning(cells: Grid, winNum: nat)
  {
    exists i, j :: 0 <= i < |cells| && 0 <= j < |cells[i]| && cells[i][j] >= winNum
  }

  /** No direction can move the board. */
  predicate Stuck(cells: Grid)
  {
    forall d: Direction :: !CanMove(cells, d)
  }

  /** The invariant of the admin between turns: a square board of at least
      2 x 2 valid tiles, and a score that is never incremented. */
  predicate WellFormed(adm: Admin)
  {
    && adm.size >= 2
    && |adm.cells| == adm.size
    && IsSquare(adm.cells)
    && ValidGrid(adm.cells)
    && adm.score == 0
  }

  // ---------------------------------------------------------------------
  // The operations of Admin

  /** `can_move` (2048.py:223-224): `getattr(grid, 'can_move_' + action)`,
      which raises `AttributeError` for `restart` and `exit`. */
  function AdminCanMove(cells: Grid, a: Input.Action): (r: Result<bool>)
    ensures r.Raised? <==> Input.DirectionOf(a).None?
    ensures r.Raised? ==> r.fault == AttributeError
    ensures r.Ok? ==> (r.value <==> CanMove(cells, Input.DirectionOf(a).value))
  {
    match a
    case Up => Ok(CanMoveUp(cells))
    case Left => Ok(CanMoveLeft(cells))
    case Down => Ok(CanMoveDown(cells))
    case Right => Ok(CanMoveRight(cells))
    case Restart => Raised(AttributeError)
    case Exit => Raised(AttributeError)
  }

  /** `move` (2048.py:206-212): when the action can move the board, the move
      and one spawn, returning True; otherwise False and the board untouched. */
  function AdminMove(cells: Grid, a: Input.Action, chance: Chance): (r: Result<Moved>)
    ensures Input.DirectionOf(a).None? ==> r == Raised(AttributeError)
    ensures IsSquare(cells) && Input.DirectionOf(a).Some? ==> r.Ok?
    ensures IsSquare(cells) && r.Ok? ==>
      var d := Input.DirectionOf(a).value;
      && (r.value.moved <==> Move(cells, d) != cells)
      && (!r.value.moved ==> r.value.cells == cells)
      && (r.value.moved ==> exists i, j :: SpawnedAt(Move(cells, d), r.value.cells, i, j, NewTile(chance.roll)))
  {
    var can :- AdminCanMove(cells, a);
    if can then
      var d := Input.DirectionOf(a).value;
      assert IsSquare(cells) ==> Spawn(Move(cells, d), chance).Ok? by {
        if IsSquare(cells) {
          MoveLeavesRoom(cells, d);
        }
      }
      assert IsSquare(cells) ==> Move(cells, d) != cells by {
        if IsSquare(cells) {
          CanMoveIff(cells, d);
        }
      }
      var after :- Spawn(Move(cells, d), chance);
      Ok(Moved(true, after))
    else
      assert IsSquare(cells) ==> Move(cells, Input.DirectionOf(a).value) == cells by {
        if IsSquare(cells) {
          CanMoveIff(cells, Input.DirectionOf(a).value);
        }
      }
      Ok(Moved(false, cells))
  }

  /** All cells of the board, row after row: `chain(*cells)`. */
  function Flatten(g: Grid): (r: Row)
    ensures forall i, j :: 0 <= i < |g| && 0 <= j < |g[i]| ==> g[i][j] in r
    ensures forall x :: x in r ==> exists i, j :: 0 <= i < |g| && 0 <= j < |g[i]| && g[i][j] == x
    decreases |g|
  {
    if |g| == 0 then []
    else
      var rest := Flatten(g[1..]);
      assert forall i :: 1 <= i < |g| ==> g[i] == g[1..][i - 1];
      assert forall x :: x in rest ==> exists i, j :: 0 <= i < |g| && 0 <= j < |g[i]| && g[i][j] == x by {
        forall x | x in rest
          ensures exists i, j :: 0 <= i < |g| && 0 <= j < |g[i]| && g[i][j] == x
        {
          var i, j :| 0 <= i < |g[1..]| && 0 <= j < |g[1..][i]| && g[1..][i][j] == x;
          assert g[i + 1][j] == x;
        }
      }
      g[0] + rest
  }

  /** The largest value of a non-empty sequence: Python's `max`. */
  function MaxOf(s: Row): (m: nat)
    requires |s| > 0
    ensures m in s
    ensures forall k :: 0 <= k < |s| ==> s[k] <= m
    decreases |s|
  {
    if |s| == 1 then s[0]
    else
      var rest := MaxOf(s[1..]);
      assert forall k :: 1 <= k < |s| ==> s[k] == s[1..][k - 1];
      if s[0] >= rest then s[0] else rest
  }

  /** A board without a single cell. */
  predicate NoCells(g: Grid)
  {
    forall i :: 0 <= i < |g| ==> |g[i]| == 0
  }

  /** The flattened board is empty exactly when the board has no cell. */
  lemma FlattenEmpty(g: Grid)
    ensures |Flatten(g)| == 0 <==> NoCells(g)
  {
    if !NoCells(g) {
      var i :| 0 <= i < |g| && |g[i]| > 0;
      assert g[i][0] in Flatten(g);
    }
    if |Flatten(g)| > 0 {
      assert Flatten(g)[0] in Flatten(g);
    }
  }

  /** The largest cell reaches `winNum` exactly when some cell does. */
  lemma MaxReachesIffWinning(g: Grid, winNum: nat)
    requires |Flatten(g)| > 0
    ensures MaxOf(Flatten(g)) >= winNum <==> Winning(g, winNum)
  {
    var flat := Flatten(g);
    var m := MaxOf(flat);
    if m >= winNum {
      var i, j :| 0 <= i < |g| && 0 <= j < |g[i]| && g[i][j] == m;
      assert g[i][j] >= winNum;
    }
    if Winning(g, winNum) {
      var i, j :| 0 <= i < |g| && 0 <= j < |g[i]| && g[i][j] >= winNum;
      assert g[i][j] in flat;
      var k :| 0 <= k < |flat| && flat[k] == g[i][j];
    }
  }

  /** `is_win` (2048.py:214-217): `max(chain(*cells)) >= win_num`, which
      raises `ValueError` on a board without cells. */
  function IsWin(cells: Grid, winNum: nat): (r: Result<bool>)
    ensures r.Raised? <==> NoCells(cells)
    ensures r.Raised? ==> r.fault == ValueError
    ensures r.Ok? ==> (r.value <==> Winning(cells, winNum))
  {
    var flat := Flatten(cells);
    FlattenEmpty(cells);
    if |flat| == 0 then
      Raised(ValueError)
    else
      MaxReachesIffWinning(cells, winNum);
      Ok(MaxOf(flat) >= winNum)
  }

  /** No direction can move the board exactly when none of the four
      `can_move_*` probes succeeds. */
  lemma StuckIff(cells: Grid)
    ensures Stuck(cells) <==>
      !CanMoveUp(cells) && !CanMoveLeft(cells) && !CanMoveDown(cells) && !CanMoveRight(cells)
  {
    assert CanMove(cells, Up) == CanMoveUp(cells);
    assert CanMove(cells, Left) == CanMoveLeft(cells);
    assert CanMove(cells, Down) == CanMoveDown(cells);
    assert CanMove(cells, Right) == CanMoveRight(cells);
  }

  /** `any(self.can_move(move) for move in actions)`: stops at the first
      action that can move, and raises on the first action without a
      `can_move_` method reached before that. */
  function AnyCanMove(cells: Grid, actions: seq<Input.Action>): Result<bool>
    decreases |actions|
  {
    if |actions| == 0 then Ok(false)
    else
      var can :- AdminCanMove(cells, actions[0]);
      if can then Ok(true) else AnyCanMove(cells, actions[1..])
  }

  /** `is_over` (2048.py:219-221) as written: it walks all six actions, so
      on a board no direction can move it reaches `can_move('restart')` and
      raises `AttributeError`; otherwise it sets `over` to False. It has no
      `return`, so its value is always `None`. */
  function IsOver(adm: Admin): (r: Result<OverCheck>)
    ensures r.Raised? <==> Stuck(adm.cells)
    ensures r.Raised? ==> r.fault == AttributeError
    ensures r.Ok? ==> r.value.returned == None && r.value.admin == adm.(over := false)
  {
    var acts := Input.Actions;
    assert acts[0] == Input.Up && acts[1..][0] == Input.Left && acts[2..][0] == Input.Down;
    assert acts[3..][0] == Input.Right && acts[4..][0] == Input.Restart;
    assert acts[1..][1..] == acts[2..] && acts[2..][1..] == acts[3..] && acts[3..][1..] == acts[4..];
    StuckIff(adm.cells);
    var any :- AnyCanMove(adm.cells, acts);
    Ok(OverCheck(adm.(over := !any), None))
  }

  /** `reset` (2048.py:194-200): a fresh board and cleared flags and score. */
  function AdminReset(adm: Admin, first: Chance, second: Chance): Result<Admin>
  {
    var cells :- Reset(adm.size, first, second);
    Ok(adm.(state := Init, win := false, over := false, score := 0, cells := cells))
  }

  /** `Admin(size, win_num)` (2048.py:189-192). */
  function NewAdmin(size: nat, winNum: nat, first: Chance, second: Chance): Result<Admin>
  {
    AdminReset(Admin(size, winNum, Init, false, false, 0, []), first, second)
  }

  /** `state_init` (2048.py:226-228). */
  function StateInit(adm: Admin, first: Chance, second: Chance): Result<Admin>
  {
    var restarted :- AdminReset(adm, first, second);
    Ok(restarted.(state := Game))
  }

  /** The checks of `state_game` after a move that changed the board
      (2048.py:239-242): `win` on a winning board; otherwise `is_over`, whose
      `None` never selects `over`, so the turn stays in `game` or raises. */
  function CheckEnd(adm: Admin): (r: Result<Admin>)
    ensures NoCells(adm.cells) ==> r == Raised(ValueError)
    ensures !NoCells(adm.cells) ==>
      (r.Raised? <==> !Winning(adm.cells, adm.winNum) && Stuck(adm.cells))
    ensures !NoCells(adm.cells) && r.Raised? ==> r.fault == AttributeError
    ensures r.Ok? ==>
      r.value == if Winning(adm.cells, adm.winNum) then adm.(win := true, state := Win)
                 else adm.(win := false, over := false, state := Game)
  {
    var win :- IsWin(adm.cells, adm.winNum);
    var checked := adm.(win := win);
    if win then Ok(checked.(state := Win))
    else
      var over :- IsOver(checked);
      if over.returned == Some(true) then Ok(over.admin.(state := Over))
      else Ok(over.admin.(state := Game))
  }

  /** `state_game` (2048.py:230-243) once the key is read. */
  function StateGame(adm: Admin, action: Input.Action, chance: Chance): Result<Admin>
  {
    if action == Input.Restart then Ok(adm.(state := Init))
    else if action == Input.Exit then Ok(adm.(state := Exit))
    else
      var m :- AdminMove(adm.cells, action, chance);
      if m.moved then CheckEnd(adm.(cells := m.cells))
      else Ok(adm.(cells := m.cells, state := Game))
  }

  /** `_restart_or_exit` (2048.py:245-247): restart on `restart`, and exit on
      every other action. */
  function RestartOrExit(action: Input.Action): State
  {
    if action == Input.Restart then Init else Exit
  }

  /** One pass of the game loop (2048.py:255-260): the state method of the
      current state. `action` is the key the state reads (`init` reads none);
      `first` is the draw of the spawn of a move and the first spawn of a
      reset, `second` the second spawn of a reset. The loop stops at `exit`. */
  function Step(adm: Admin, action: Input.Action, first: Chance, second: Chance): Result<Admin>
    requires adm.state != Exit
  {
    match adm.state
    case Init => StateInit(adm, first, second)
    case Game => StateGame(adm, action, first)
    case Win => Ok(adm.(state := RestartOrExit(action)))
    case Over => Ok(adm.(state := RestartOrExit(action)))
  }

  // ---------------------------------------------------------------------
  // Properties of the controller

  /** The board after a successful move of a well-formed admin. */
  function AfterMove(adm: Admin, d: Direction, chance: Chance): Grid
    requires WellFormed(adm) && CanMove(adm.cells, d)
  {
    MoveLeavesRoom(adm.cells, d);
    Spawn(Move(adm.cells, d), chance).value
  }

  /** A new admin of size at least 2 is well formed and in state `init`;
      a smaller one raises `IndexError` while spawning. */
  lemma NewAdminOutcome(size: nat, winNum: nat, first: Chance, second: Chance)
    ensures size >= 2 ==> NewAdmin(size, winNum, first, second).Ok?
    ensures size < 2 ==> NewAdmin(size, winNum, first, second) == Raised(IndexError)
    ensures NewAdmin(size, winNum, first, second).Ok? ==>
      var adm := NewAdmin(size, winNum, first, second).value;
      WellFormed(adm) && adm.state == Init && |Occupied(adm.cells)| == 2
  {
    ResetOutcome(size, first, second);
  }

  /** The move keeps the board square and its tiles valid. */
  lemma AdminMoveKeepsBoard(cells: Grid, a: Input.Action, chance: Chance)
    requires IsSquare(cells) && ValidGrid(cells)
    requires AdminMove(cells, a, chance).Ok?
    ensures |AdminMove(cells, a, chance).value.cells| == |cells|
    ensures IsSquare(AdminMove(cells, a, chance).value.cells)
    ensures ValidGrid(AdminMove(cells, a, chance).value.cells)
  {
    var d := Input.DirectionOf(a).value;
    if CanMove(cells, d) {
      MoveKeepsBoard(cells, d);
      MoveLeavesRoom(cells, d);
      SpawnAddsOneTile(Move(cells, d), chance);
    }
  }

  /** The move of a directional action on a well-formed admin: it moves
      and spawns exactly when the direction can move the board, and the
      board stays square, of the same size, with valid tiles. */
  lemma WellFormedMove(adm: Admin, action: Input.Action, chance: Chance)
    requires WellFormed(adm)
    requires Input.DirectionOf(action).Some?
    ensures
      var d := Input.DirectionOf(action).value;
      AdminMove(adm.cells, action, chance) ==
        if CanMove(adm.cells, d) then Ok(Moved(true, AfterMove(adm, d, chance)))
        else Ok(Moved(false, adm.cells))
    ensures
      var d := Input.DirectionOf(action).value;
      CanMove(adm.cells, d) ==>
        var after := AfterMove(adm, d, chance);
        |after| == adm.size && IsSquare(after) && ValidGrid(after) && !NoCells(after)
  {
    var d := Input.DirectionOf(action).value;
    CanMoveIff(adm.cells, d);
    AdminMoveKeepsBoard(adm.cells, action, chance);
    if CanMove(adm.cells, d) {
      var after := AfterMove(adm, d, chance);
      assert AdminMove(adm.cells, action, chance).value.cells == after;
      assert |after[0]| == adm.size;
    }
  }

  /** A directional turn of a well-formed admin in state `game`: the move,
      then `CheckEnd` when it changed the board. */
  lemma GameTurn(adm: Admin, action: Input.Action, chance: Chance)
    requires WellFormed(adm)
    requires Input.DirectionOf(action).Some?
    ensures
      var d := Input.DirectionOf(action).value;
      StateGame(adm, action, chance) ==
        if CanMove(adm.cells, d) then CheckEnd(adm.(cells := AfterMove(adm, d, chance)))
        else Ok(adm.(state := Game))
  {
    WellFormedMove(adm, action, chance);
  }

  /** `state_init` of a well-formed admin succeeds with a fresh well-formed
      board, in state `game` with both flags cleared. */
  lemma StateInitOutcome(adm: Admin, first: Chance, second: Chance)
    requires WellFormed(adm)
    ensures StateInit(adm, first, second).Ok?
    ensures
      var next := StateInit(adm, first, second).value;
      WellFormed(next) && next.state == Game && !next.win && !next.over
  {
    ResetOutcome(adm.size, first, second);
  }

  /** A successful `state_game` never enters `over` and never sets the flag. */
  lemma StateGameNeverOver(adm: Admin, action: Input.Action, chance: Chance)
    requires StateGame(adm, action, chance).Ok?
    ensures StateGame(adm, action, chance).value.state != Over
    ensures !adm.over ==> !StateGame(adm, action, chance).value.over
  {
    if action != Input.Restart && action != Input.Exit {
      var m := AdminMove(adm.cells, action, chance).value;
      if m.moved {
        assert StateGame(adm, action, chance) == CheckEnd(adm.(cells := m.cells));
      }
    }
  }

  /** A successful `state_game` keeps a well-formed admin well formed. */
  lemma StateGameKeepsWellFormed(adm: Admin, action: Input.Action, chance: Chance)
    requires WellFormed(adm)
    requires StateGame(adm, action, chance).Ok?
    ensures WellFormed(StateGame(adm, action, chance).value)
  {
    if Input.DirectionOf(action).Some? {
      var d := Input.DirectionOf(action).value;
      WellFormedMove(adm, action, chance);
      GameTurn(adm, action, chance);
      if CanMove(adm.cells, d) {
        CheckEndKeepsWellFormed(adm.(cells := AfterMove(adm, d, chance)));
      }
    }
  }

  /** The end-of-turn checks change only the state and the two flags. */
  lemma CheckEndKeepsWellFormed(adm: Admin)
    requires WellFormed(adm)
    requires CheckEnd(adm).Ok?
    ensures WellFormed(CheckEnd(adm).value)
  {
  }

  /** A turn keeps the admin well formed; the score stays 0. */
  lemma StepKeepsWellFormed(adm: Admin, action: Input.Action, first: Chance, second: Chance)
    requires WellFormed(adm) && adm.state != Exit
    requires Step(adm, action, first, second).Ok?
    ensures WellFormed(Step(adm, action, first, second).value)
  {
    match adm.state
    case Init => StateInitOutcome(adm, first, second);
    case Game => StateGameKeepsWellFormed(adm, action, first);
    case Win =>
    case Over =>
  }

  /** The `'over'` branch of `state_game` is never taken: no turn enters
      state `over`, and `over` is never set. */
  lemma NeverOver(adm: Admin, action: Input.Action, first: Chance, second: Chance)
    requires adm.state != Exit
    requires Step(adm, action, first, second).Ok?
    ensures Step(adm, action, first, second).value.state != Over
    ensures !adm.over ==> !Step(adm, action, first, second).value.over
  {
    match adm.state
    case Init =>
    case Game => StateGameNeverOver(adm, action, first);
    case Win =>
    case Over =>
  }

  /** A turn of a well-formed admin raises exactly when a move changes the
      board, does not win, and leaves a board no direction can move:
      `is_over` then reaches `can_move('restart')`. */
  lemma StepRaisesWhenStuck(adm: Admin, action: Input.Action, first: Chance, second: Chance)
    requires WellFormed(adm) && adm.state != Exit
    ensures Step(adm, action, first, second).Raised? <==>
      && adm.state == Game
      && Input.DirectionOf(action).Some?
      && CanMove(adm.cells, Input.DirectionOf(action).value)
      && !Winning(AfterMove(adm, Input.DirectionOf(action).value, first), adm.winNum)
      && Stuck(AfterMove(adm, Input.DirectionOf(action).value, first))
    ensures Step(adm, action, first, second).Raised? ==>
      Step(adm, action, first, second).fault == AttributeError
  {
    match adm.state
    case Init => ResetOutcome(adm.size, first, second);
    case Game =>
      if Input.DirectionOf(action).Some? {
        WellFormedMove(adm, action, first);
        GameTurn(adm, action, first);
      }
    case Win =>
    case Over =>
  }

  /** A move onto a board holding `winNum` enters state `win`. */
  lemma WinningMoveWins(adm: Admin, action: Input.Action, chance: Chance)
    requires WellFormed(adm)
    requires Input.DirectionOf(action).Some? && CanMove(adm.cells, Input.DirectionOf(action).value)
    requires Winning(AfterMove(adm, Input.DirectionOf(action).value, chance), adm.winNum)
    ensures StateGame(adm, action, chance) ==
      Ok(adm.(cells := AfterMove(adm, Input.DirectionOf(action).value, chance), win := true, state := Win))
  {
    WellFormedMove(adm, action, chance);
    GameTurn(adm, action, chance);
  }

  // ---------------------------------------------------------------------
  // The intended game-over check

  /** `is_over` as its name and the `'over'` branch intend: no direction can
      move the board. */
  function IsOverIntended(cells: Grid): (r: bool)
    ensures r <==> Stuck(cells)
  {
    StuckIff(cells);
    !(CanMoveUp(cells) || CanMoveLeft(cells) || CanMoveDown(cells) || CanMoveRight(cells))
  }

  /** The checks after a move with the intended game-over check. */
  function CheckEndIntended(adm: Admin): (r: Result<Admin>)
    ensures NoCells(adm.cells) <==> r == Raised(ValueError)
    ensures r.Ok? ==>
      r.value == if Winning(adm.cells, adm.winNum) then adm.(win := true, state := Win)
                 else if Stuck(adm.cells) then adm.(win := false, over := true, state := Over)
                 else adm.(win := false, over := false, state := Game)
  {
    var win :- IsWin(adm.cells, adm.winNum);
    var checked := adm.(win := win);
    if win then Ok(checked.(state := Win))
    else
      var over := IsOverIntended(checked.cells);
      var flagged := checked.(over := over);
      if over then Ok(flagged.(state := Over)) else Ok(flagged.(state := Game))
  }

  /** `state_game` with the intended game-over check. */
  function StateGameIntended(adm: Admin, action: Input.Action, chance: Chance): Result<Admin>
  {
    if action == Input.Restart then Ok(adm.(state := Init))
    else if action == Input.Exit then Ok(adm.(state := Exit))
    else
      var m :- AdminMove(adm.cells, action, chance);
      if m.moved then CheckEndIntended(adm.(cells := m.cells))
      else Ok(adm.(cells := m.cells, state := Game))
  }

  /** The game loop with the intended game-over check. */
  function StepIntended(adm: Admin, action: Input.Action, first: Chance, second: Chance): Result<Admin>
    requires adm.state != Exit
  {
    match adm.state
    case Init => StateInit(adm, first, second)
    case Game => StateGameIntended(adm, action, first)
    case Win => Ok(adm.(state := RestartOrExit(action)))
    case Over => Ok(adm.(state := RestartOrExit(action)))
  }

  /** With the intended check a directional turn of a well-formed admin
      never raises, keeps it well formed, and enters `over` exactly when the
      move changes the board, does not win, and leaves a board no direction
      can move. */
  lemma StateGameIntendedOutcome(adm: Admin, action: Input.Action, chance: Chance)
    requires WellFormed(adm)
    ensures StateGameIntended(adm, action, chance).Ok?
    ensures WellFormed(StateGameIntended(adm, action, chance).value)
    ensures StateGameIntended(adm, action, chance).value.state == Over <==>
      && Input.DirectionOf(action).Some?
      && CanMove(adm.cells, Input.DirectionOf(action).value)
      && !Winning(AfterMove(adm, Input.DirectionOf(action).value, chance), adm.winNum)
      && Stuck(AfterMove(adm, Input.DirectionOf(action).value, chance))
  {
    if Input.DirectionOf(action).Some? {
      WellFormedMove(adm, action, chance);
      GameTurnIntended(adm, action, chance);
    }
  }

  /** `GameTurn` with the intended game-over check. */
  lemma GameTurnIntended(adm: Admin, action: Input.Action, chance: Chance)
    requires WellFormed(adm)
    requires Input.DirectionOf(action).Some?
    ensures
      var d := Input.DirectionOf(action).value;
      StateGameIntended(adm, action, chance) ==
        if CanMove(adm.cells, d) then CheckEndIntended(adm.(cells := AfterMove(adm, d, chance)))
        else Ok(adm.(state := Game))
  {
    WellFormedMove(adm, action, chance);
  }

  /** With the intended check a well-formed admin never raises, stays well
      formed, and enters `over` exactly when a move changes the board, does
      not win, and leaves a board no direction can move. */
  lemma IntendedStepOutcome(adm: Admin, action: Input.Action, first: Chance, second: Chance)
    requires WellFormed(adm) && adm.state != Exit
    ensures StepIntended(adm, action, first, second).Ok?
    ensures WellFormed(StepIntended(adm, action, first, second).value)
    ensures adm.state == Game ==>
      (StepIntended(adm, action, first, second).value.state == Over <==>
        && Input.DirectionOf(action).Some?
        && CanMove(adm.cells, Input.DirectionOf(action).value)
        && !Winning(AfterMove(adm, Input.DirectionOf(action).value, first), adm.winNum)
        && Stuck(AfterMove(adm, Input.DirectionOf(action).value, first)))
  {
    match adm.state
    case Init => StateInitOutcome(adm, first, second);
    case Game => StateGameIntendedOutcome(adm, action, first);
    case Win =>
    case Over =>
  }

  // ---------------------------------------------------------------------
  // A worked turn on a 2 x 2 board

  /** Reversing a two-cell row swaps its cells. */
  lemma ReversePair(a: nat, b: nat)
    ensures Reverse([a, b]) == [b, a]
  {
    assert Reverse([a, b])[0] == b;
  }

  /** Inverting a two-row board reverses both rows. */
  lemma InvertPair(g: Grid)
    requires |g| == 2
    ensures Invert(g) == [Reverse(g[0]), Reverse(g[1])]
  {
  }

  /** The two rows of the inverted board of the worked turn, moved left. */
  lemma WorkedRows()
    ensures MoveRowLeft([4, 2]) == [4, 2]
    ensures MoveRowLeft([0, 2]) == [2, 0]
    ensures RowIsLeftMovable([0, 2])
  {
    MovableIffMoveChanges([4, 2]);
    assert !RowIsLeftMovable([4, 2]);
    WorkedRowStages();
    MoveRowLeftExample([0, 2], [2], [2, 0], [2, 0], [2], [2, 0]);
    assert Change([0, 2], 0);
  }

  /** The stages of moving `[0, 2]` left. */
  lemma WorkedRowStages()
    ensures NonZeros([0, 2]) == [2] && NonZeros([2, 0]) == [2]
    ensures Merge([2, 0]) == [2, 0] && [2, 0] == [2] + Zeros(1)
  {
  }

  /** Moving `[[2, 4], [2, 0]]` right slides the lone 2 of the second row. */
  lemma WorkedMove()
    ensures CanMove([[2, 4], [2, 0]], Right)
    ensures Move([[2, 4], [2, 0]], Right) == [[2, 4], [0, 2]]
  {
    WorkedRows();
    WorkedInverts();
    var inverted: Grid := [[4, 2], [0, 2]];
    assert MoveLeft(inverted) == [[4, 2], [2, 0]];
    assert RowIsLeftMovable(inverted[1]);
  }

  /** The inverted boards of the worked move. */
  lemma WorkedInverts()
    ensures Invert([[2, 4], [2, 0]]) == [[4, 2], [0, 2]]
    ensures Invert([[4, 2], [2, 0]]) == [[2, 4], [0, 2]]
  {
    ReversePair(2, 4);
    ReversePair(2, 0);
    ReversePair(4, 2);
    ReversePair(0, 2);
    InvertPair([[2, 4], [2, 0]]);
    InvertPair([[4, 2], [2, 0]]);
  }

  /** The only free cell of `[[2, 4], [0, 2]]` receives a 4 on a roll of 95. */
  lemma WorkedSpawn()
    ensures Spawn([[2, 4], [0, 2]], Chance(95, 0)) == Ok([[2, 4], [4, 2]])
  {
    var g: Grid := [[2, 4], [0, 2]];
    assert RowEmpties(g[0], 0, 0) == [];
    assert RowEmpties(g[1], 1, 1) == [];
    assert RowEmpties(g[1], 1, 0) == [(1, 0)];
    assert EmptyCellsFrom(g, 2) == [];
    assert EmptyCellsFrom(g, 1) == [(1, 0)];
    assert EmptyCells(g) == [(1, 0)];
    assert NewTile(95) == 4;
    var row: Row := g[1][0 := 4];
    assert row == [4, 2];
    assert g[1 := row] == [[2, 4], [4, 2]];
  }

  /** `[[2, 4], [4, 2]]` has no free cell and no equal neighbours in any
      direction, and no tile of 2048. */
  lemma WorkedStuck()
    ensures Stuck([[2, 4], [4, 2]])
    ensures !Winning([[2, 4], [4, 2]], 2048)
  {
    var g: Grid := [[2, 4], [4, 2]];
    StuckIff(g);
    WorkedSymmetric();
    WorkedStuckRows();
  }

  /** The final board of the worked turn is its own transpose. */
  lemma WorkedSymmetric()
    ensures Transpose([[2, 4], [4, 2]]) == [[2, 4], [4, 2]]
  {
    var g: Grid := [[2, 4], [4, 2]];
    TransposeSquare(g);
    assert Transpose(g)[0][0] == 2 && Transpose(g)[0][1] == 4;
    assert Transpose(g)[1][0] == 4 && Transpose(g)[1][1] == 2;
    assert Transpose(g)[0] == g[0];
    assert Transpose(g)[1] == g[1];
  }

  /** Neither the final board nor its inverse has a movable row. */
  lemma WorkedStuckRows()
    ensures !CanMoveLeft([[2, 4], [4, 2]])
    ensures !CanMoveRight([[2, 4], [4, 2]])
  {
    var g: Grid := [[2, 4], [4, 2]];
    ReversePair(2, 4);
    ReversePair(4, 2);
    InvertPair(g);
    assert !RowIsLeftMovable([2, 4]);
    assert !RowIsLeftMovable([4, 2]);
    assert !AnyRowMovable(g, 0);
    assert !AnyRowMovable([[4, 2], [2, 4]], 0);
  }

  /** The admin of the worked turn is well formed. */
  lemma WorkedAdminWellFormed()
    ensures WellFormed(Admin(2, 2048, Game, false, false, 0, [[2, 4], [2, 0]]))
  {
    assert IsPowerOfTwo(2 / 2) && IsPowerOfTwo(4 / 2);
    assert ValidTiles([2, 4]) && ValidTiles([2, 0]);
  }

  /** The board after the worked turn. */
  lemma WorkedAdmin()
    ensures WellFormed(Admin(2, 2048, Game, false, false, 0, [[2, 4], [2, 0]]))
    ensures CanMove([[2, 4], [2, 0]], Right)
    ensures AfterMove(Admin(2, 2048, Game, false, false, 0, [[2, 4], [2, 0]]), Right, Chance(95, 0))
      == [[2, 4], [4, 2]]
  {
    WorkedAdminWellFormed();
    WorkedMove();
    WorkedSpawn();
  }

  /** The turn that exposes `is_over`: moving `[[2, 4], [2, 0]]` right and
      spawning a 4 fills the board with no move left, and the turn raises
      `AttributeError` from `can_move('restart')` instead of entering `over`. */
  lemma StuckTurnRaises(adm: Admin)
    requires adm == Admin(2, 2048, Game, false, false, 0, [[2, 4], [2, 0]])
    ensures Step(adm, Input.Right, Chance(95, 0), Chance(0, 0)) == Raised(AttributeError)
  {
    WorkedAdmin();
    WorkedStuck();
    StepRaisesWhenStuck(adm, Input.Right, Chance(95, 0), Chance(0, 0));
  }

  /** With the intended check the same turn enters `over`. */
  lemma StuckTurnEndsGame(adm: Admin)
    requires adm == Admin(2, 2048, Game, false, false, 0, [[2, 4], [2, 0]])
    ensures StepIntended(adm, Input.Right, Chance(95, 0), Chance(0, 0)).Ok?
    ensures StepIntended(adm, Input.Right, Chance(95, 0), Chance(0, 0)).value.state == Over
  {
    WorkedAdmin();
    WorkedStuck();
    IntendedStepOutcome(adm, Input.Right, Chance(95, 0), Chance(0, 0));
  }
}
