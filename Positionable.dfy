/** `Positionable`: a position with the previous frame's position and a
    flag telling whether the last move changed it, so that the renderer
    can interpolate between the two. */
module Positionables {
  import opened Vectors

  class Positionable {
    var position: Vec3
    var prevPosition: Vec3
    var isChange: bool

    /** The default constructor: the origin, unchanged. */
    constructor ()
      ensures position == Zero && prevPosition == position && !isChange
    {
      position := Zero;
      prevPosition := position;
      isChange := false;
    }

    /** The constructor from a position: unchanged. */
    constructor At(p: Vec3)
      ensures position == p && prevPosition == p && !isChange
    {
      position := p;
      prevPosition := position;
      isChange := false;
    }

    /** update: the current position becomes the previous one. */
    method Update()
      modifies this
      ensures position == old(position) && prevPosition == position && !isChange
    {
      prevPosition := position;
      isChange := false;
    }

    /** setPosition: a jump, not a change to interpolate over. */
    method SetPosition(p: Vec3)
      modifies this
      ensures position == p && prevPosition == p && !isChange
    {
      position := p;
      prevPosition := position;
      isChange := false;
    }

    /** move: a zero delta only rebases the previous position; any other
        delta is a change from the old position to the moved one. */
    method Move(delta: Vec3)
      modifies this
      ensures prevPosition == old(position)
      ensures delta == Zero ==> position == old(position) && !isChange
      ensures delta != Zero ==> position == Add(old(position), delta) && isChange
    {
      prevPosition := position;
      if delta == Zero {
        isChange := false;
      } else {
        position := Add(position, delta);
        isChange := true;
      }
    }

    /** position(interp): the interpolated position while changing, the
        current one otherwise. */
    function PositionAt(interp: real): (p: Vec3)
      reads this
      ensures !isChange ==> p == position
      ensures isChange && interp == 0.0 ==> p == prevPosition
      ensures isChange && interp == 1.0 ==> p == position
    {
      if isChange then Mix(prevPosition, position, interp) else position
    }
  }
}
