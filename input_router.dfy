/**
 * The keyboard handler: a key event is resolved through the binding table
 * and, when a button is bound to its code, that button of controller 1 is
 * set to pressed on `keydown` and to released on any other event type.
 */
module InputRouter {
  import opened KeyBinding

  /** The state of the standard controller, one flag per button. */
  type ButtonState = map<Button, bool>

  /** A state that has a flag for every button. */
  predicate Total(s: ButtonState)
  {
    forall b: Button :: b in s
  }

  /** A button is one of the eight. */
  lemma ButtonCases(b: Button)
    ensures b in {UP, DOWN, LEFT, RIGHT, START, SELECT, A, B}
  {
    match b
    case UP => case DOWN => case LEFT => case RIGHT =>
    case START => case SELECT => case A => case B =>
  }

  /** Every button released. */
  function AllReleased(): (s: ButtonState)
    ensures Total(s)
    ensures forall b: Button :: !s[b]
  {
    var s := map[UP := false, DOWN := false, LEFT := false, RIGHT := false,
                 START := false, SELECT := false, A := false, B := false];
    assert forall b: Button :: b in s by {
      forall b: Button ensures b in s {
        ButtonCases(b);
      }
    }
    s
  }

  /** The two fields of `KeyboardEvent` the handler reads. */
  datatype KeyEvent = KeyEvent(eventType: string, code: string)

  /** `e.type === 'keydown'`: the pressed flag the handler passes on. */
  predicate IsKeyDown(e: KeyEvent)
  {
    e.eventType == "keydown"
  }

  /**
   * The controller state after the handler has run on `e`: the button whose
   * table code is `e.code` (if any) takes the event's pressed flag and every
   * other button keeps its state.
   */
  function ApplyKey(s: ButtonState, e: KeyEvent): (r: ButtonState)
    ensures forall b :: b in r <==> b in s || CodeOf(b) == e.code
    ensures forall b :: b in r ==> r[b] == if CodeOf(b) == e.code then IsKeyDown(e) else s[b]
    ensures Total(s) ==> Total(r)
  {
    match ButtonOf(e.code)
    case None => s
    case Some(button) => s[button := IsKeyDown(e)]
  }

  /** A key with no binding changes nothing. */
  lemma UnboundKeyIsIgnored(s: ButtonState, e: KeyEvent)
    requires ButtonOf(e.code) == None
    ensures ApplyKey(s, e) == s
  {
  }

  /** A bound key sets exactly its own button and nothing else. */
  lemma BoundKeySetsOneButton(s: ButtonState, e: KeyEvent, b: Button)
    requires Total(s)
    requires ButtonOf(e.code) == Some(b)
    ensures ApplyKey(s, e) == s[b := IsKeyDown(e)]
    ensures forall c :: c != b ==> ApplyKey(s, e)[c] == s[c]
  {
  }

  /** Handling the same event twice is the same as handling it once (key repeat). */
  lemma ApplyKeyIdempotent(s: ButtonState, e: KeyEvent)
    ensures ApplyKey(ApplyKey(s, e), e) == ApplyKey(s, e)
  {
  }

  /** Press then release of a bound key leaves that button released and the rest as before. */
  lemma PressThenRelease(s: ButtonState, b: Button)
    ensures ApplyKey(ApplyKey(s, KeyEvent("keydown", CodeOf(b))), KeyEvent("keyup", CodeOf(b))) == s[b := false]
  {
    ButtonOfCodeOf(b);
  }

  /**
   * Controller 1 of the emulator, seen only through `updateButton`; its
   * internals are not part of this model.
   */
  class Controller {
    var state: ButtonState

    constructor ()
      ensures state == AllReleased()
    {
      state := AllReleased();
    }

    /** `updateButton(button, pressed)`. */
    method UpdateButton(button: Button, pressed: bool)
      modifies this
      ensures state == old(state)[button := pressed]
    {
      state := state[button := pressed];
    }
  }
}
