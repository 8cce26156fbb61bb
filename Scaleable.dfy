/** `Scaleable`: a scale with the previous frame's scale and a flag
    telling whether the last scaling changed it. */
module Scaleables {
  import opened Vectors

  class Scaleable {
    var scale: Vec3
    var prevScale: Vec3
    var isChange: bool

    /** The default constructor: unit scale, unchanged. */
    constructor ()
      ensures scale == One && prevScale == scale && !isChange
    {
      scale := One;
      prevScale := scale;
      isChange := false;
    }

    /** The constructor from a scale: unchanged. */
    constructor Of(s: Vec3)
      ensures scale == s && prevScale == s && !isChange
    {
      scale := s;
      prevScale := scale;
      isChange := false;
    }

    /** update: the current scale becomes the previous one. */
    method Update()
      modifies this
      ensures scale == old(scale) && prevScale == scale && !isChange
    {
      prevScale := scale;
      isChange := false;
    }

    /** setScale: a jump, not a change to interpolate over. */
    method SetScale(s: Vec3)
      modifies this
      ensures scale == s && prevScale == s && !isChange
    {
      scale := s;
      prevScale := scale;
      isChange := false;
    }

    /** scale(factor): a unit factor only rebases the previous scale; any
        other factor multiplies component-wise and is a change. */
    method ScaleBy(factor: Vec3)
      modifies this
      ensures prevScale == old(scale)
      ensures factor == One ==> scale == old(scale) && !isChange
      ensures factor != One ==> scale == Mul(old(scale), factor) && isChange
    {
      prevScale := scale;
      if factor == One {
        isChange := false;
      } else {
        scale := Mul(scale, factor);
        isChange := true;
      }
    }

    /** scale(interp): the interpolated scale while changing, the current
        one otherwise. */
    function ScaleAt(interp: real): (s: Vec3)
      reads this
      ensures !isChange ==> s == scale
      ensures isChange && interp == 0.0 ==> s == prevScale
      ensures isChange && interp == 1.0 ==> s == scale
    {
      if isChange then Mix(prevScale, scale, interp) else scale
    }
  }
}
