/** The static `Mouse` state: cursor position, the movement since the
    previous update, a reset flag that makes the next update report no
    movement, and the last action seen for each button. */
module Input {

  /** GLFW's action codes and its highest mouse button number. */
  const GLFW_RELEASE: int := 0
  const GLFW_PRESS: int := 1
  const GLFW_MOUSE_BUTTON_LAST: nat := 7

  /** The movement one update reports: none right after a reset,
      otherwise the distance from the previous coordinate. */
  function Delta(reset: bool, prev: real, next: real): (d: real)
    ensures reset ==> d == 0.0
    ensures !reset ==> prev + d == next
  {
    if reset then 0.0 else next - prev
  }

  /** Two updates in a row without a reset between them report movements
      that add up to the distance covered by both. */
  lemma DeltasCompose(reset: bool, a: real, b: real, c: real)
    ensures !reset ==> Delta(reset, a, b) + Delta(false, b, c) == c - a
    ensures reset ==> Delta(reset, a, b) + Delta(false, b, c) == c - b
  {
  }

  class Mouse {
    var x: real
    var y: real
    var dx: real
    var dy: real
    var reset: bool
    /** `int mouseButtons[GLFW_MOUSE_BUTTON_LAST]`. */
    const mouseButtons: array<int>

    predicate Valid()
      reads this
    {
      mouseButtons.Length == GLFW_MOUSE_BUTTON_LAST
    }

    /** The static initialisers: at the origin, every button released,
        reset pending. */
    constructor ()
      ensures Valid() && fresh(mouseButtons)
      ensures x == 0.0 && y == 0.0 && dx == 0.0 && dy == 0.0 && reset
      ensures forall b :: 0 <= b < mouseButtons.Length ==> mouseButtons[b] == GLFW_RELEASE
    {
      x, y, dx, dy := 0.0, 0.0, 0.0, 0.0;
      reset := true;
      mouseButtons := new int[GLFW_MOUSE_BUTTON_LAST](_ => GLFW_RELEASE);
    }

    /** update(newX, newY): the movement since the last update (none
        after a reset) and the new position; the reset is consumed. */
    method Update(newX: real, newY: real)
      modifies this
      ensures dx == Delta(old(reset), old(x), newX) && dy == Delta(old(reset), old(y), newY)
      ensures x == newX && y == newY && !reset
    {
      if reset {
        x := newX;
        y := newY;
        reset := false;
      }
      dx := newX - x;
      dy := newY - y;
      x := newX;
      y := newY;
    }

    /** reset: only raises the flag. */
    method Reset()
      modifies this
      ensures reset && x == old(x) && y == old(y) && dx == old(dx) && dy == old(dy)
    {
      reset := true;
    }

    /** setButtonStatus: records the action for that button only. */
    method SetButtonStatus(button: nat, action: int)
      requires Valid() && button < mouseButtons.Length
      modifies mouseButtons
      ensures mouseButtons[button] == action
      ensures forall b :: 0 <= b < mouseButtons.Length && b != button ==> mouseButtons[b] == old(mouseButtons[b])
    {
      mouseButtons[button] := action;
    }

    /** isDown: the last action recorded is a press or a repeat. */
    predicate IsDown(button: nat)
      requires Valid() && button < mouseButtons.Length
      reads this, mouseButtons
    {
      mouseButtons[button] >= GLFW_PRESS
    }
  }
}
