/** The user actions of class `Action` (2048.py:163-174) and the key table
    that maps keyboard letters to them. */
module Input {
  import opened Errors
  import Field

  datatype Action = Up | Left | Down | Right | Restart | Exit

  /** `Action.actions` (2048.py:173), in the order `is_over` walks them. */
  const Actions: seq<Action> := [Up, Left, Down, Right, Restart, Exit]

  /** The letters of `letter_codes` (2048.py:172). */
  const Letters: string := "WASDRQwasdrq"

  /** `actions_dict` (2048.py:174): the letter at position `k` of `Letters`
      names the action at position `k % 6` of `Actions`. */
  function ActionOfKey(key: char): (a: Option<Action>)
    ensures a.Some? <==> key in Letters
    ensures a.Some? ==> exists k :: 0 <= k < |Letters| && Letters[k] == key && a.value == Actions[k % 6]
  {
    match key
    case 'W' => assert Letters[0] == key; Some(Up)
    case 'A' => assert Letters[1] == key; Some(Left)
    case 'S' => assert Letters[2] == key; Some(Down)
    case 'D' => assert Letters[3] == key; Some(Right)
    case 'R' => assert Letters[4] == key; Some(Restart)
    case 'Q' => assert Letters[5] == key; Some(Exit)
    case 'w' => assert Letters[6] == key; Some(Up)
    case 'a' => assert Letters[7] == key; Some(Left)
    case 's' => assert Letters[8] == key; Some(Down)
    case 'd' => assert Letters[9] == key; Some(Right)
    case 'r' => assert Letters[10] == key; Some(Restart)
    case 'q' => assert Letters[11] == key; Some(Exit)
    case _ => None
  }

  /** The `move_*`/`can_move_*` method an action names, if the grid has one:
      there is no `move_restart` or `move_exit`. */
  function DirectionOf(a: Action): Option<Field.Direction>
  {
    match a
    case Up => Some(Field.Up)
    case Left => Some(Field.Left)
    case Down => Some(Field.Down)
    case Right => Some(Field.Right)
    case Restart => None
    case Exit => None
  }
}
