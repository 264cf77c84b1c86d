/**
 * The fixed table from keyboard codes to the eight buttons of the standard
 * controller, and the `switch` of the keyboard handler that looks a code up.
 */
module KeyBinding {

  datatype Option<T> = None | Some(value: T)

  /** `StandardControllerButton`. */
  datatype Button = UP | DOWN | LEFT | RIGHT | START | SELECT | A | B

  /** The binding table: the key code each button is bound to. */
  function CodeOf(b: Button): string
  {
    match b
    case UP => "ArrowUp"
    case DOWN => "ArrowDown"
    case LEFT => "ArrowLeft"
    case RIGHT => "ArrowRight"
    case START => "Enter"
    case SELECT => "ShiftRight"
    case A => "KeyZ"
    case B => "KeyX"
  }

  /**
   * The `switch (e.code)`: the button bound to `code`, or `None` where the
   * handler falls through to `return`. It is exactly the inverse of the table.
   */
  function ButtonOf(code: string): (r: Option<Button>)
    ensures r.Some? ==> CodeOf(r.value) == code
    ensures forall b :: CodeOf(b) == code ==> r == Some(b)
  {
    if code == "ArrowUp" then Some(UP)
    else if code == "ArrowDown" then Some(DOWN)
    else if code == "ArrowLeft" then Some(LEFT)
    else if code == "ArrowRight" then Some(RIGHT)
    else if code == "Enter" then Some(START)
    else if code == "ShiftRight" then Some(SELECT)
    else if code == "KeyZ" then Some(A)
    else if code == "KeyX" then Some(B)
    else None
  }

  /** Every button is reached through its own key code. */
  lemma ButtonOfCodeOf(b: Button)
    ensures ButtonOf(CodeOf(b)) == Some(b)
  {
  }

  /** No two buttons share a key code. */
  lemma CodeOfInjective(b: Button, c: Button)
    ensures CodeOf(b) == CodeOf(c) ==> b == c
  {
    ButtonOfCodeOf(b);
    ButtonOfCodeOf(c);
  }

  /** Only the right-hand shift key is bound; the left one is ignored. */
  lemma ShiftLeftIsUnbound()
    ensures ButtonOf("ShiftLeft") == None
    ensures ButtonOf("ShiftRight") == Some(SELECT)
  {
  }
}
