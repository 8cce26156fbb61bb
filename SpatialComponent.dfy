/** `SpatialComponent`: the cache protocol of `Transform` plus a
    `transformed` flag that every mutator sets and `update` clears. */
module SpatialComponents {
  import opened Vectors
  import opened Transforms

  /** A spatial component's fields: the pose with its caches, and whether
      it was changed since the last update. */
  datatype Spatial = Spatial(pose: Pose, transformed: bool)

  /** The mutators: setPosition, move, setScale, scale(factor),
      setRotation and rotate (the last two in their corrected form). */
  datatype Mutator =
    | MoveTo(loc: Vec3)
    | MoveBy(delta: Vec3)
    | ResizeTo(scale: Vec3)
    | ResizeBy(factor: Vec3)
    | TurnTo(rot: Mat3)
    | TurnBy(mat: Mat3)

  /** The pose after a mutator. */
  function Apply(p: Pose, m: Mutator): Pose
  {
    match m
    case MoveTo(loc) => WithPosition(p, loc)
    case MoveBy(delta) => Moved(p, delta)
    case ResizeTo(scale) => WithScale(p, scale)
    case ResizeBy(factor) => ScaledBy(p, factor)
    case TurnTo(rot) => WithRotation(p, rot)
    case TurnBy(mat) => Rotated(p, mat)
  }

  /** A mutator marks the component transformed and keeps the caches
      coherent; `update` clears the mark and nothing else. */
  function Mutate(s: Spatial, m: Mutator): (r: Spatial)
    requires Coherent(s.pose)
    ensures r.transformed && Coherent(r.pose)
  {
    Spatial(Apply(s.pose, m), true)
  }

  /** As written, setRotation leaves the model matrix flagged valid, so
      a component built with the argument constructor and then rotated
      hands back the unrotated model matrix. */
  lemma StaleModelAfterSetRotation()
    ensures Coherent(Spatial(Placed(Zero, One, Identity), false).pose)
    ensures ModelFetched(WithRotationAsWritten(Placed(Zero, One, Identity), QuarterTurn)).model
         != ModelMatrix(Zero, One, QuarterTurn)
  {
    StaleModelAfterRotation();
  }

  /** Position and scale mutators leave the rotation alone and rotation
      mutators leave position and scale alone; only setPosition and move
      keep a valid normal matrix. */
  lemma MutatorFootprint(p: Pose, m: Mutator)
    ensures (m.MoveTo? || m.MoveBy?) ==> Apply(p, m).normalValid == p.normalValid && !Apply(p, m).modelValid
    ensures (m.MoveTo? || m.MoveBy? || m.ResizeTo? || m.ResizeBy?) ==> Apply(p, m).rotation == p.rotation
    ensures (m.TurnTo? || m.TurnBy?) ==>
      Apply(p, m).position == p.position && Apply(p, m).scale == p.scale && !Apply(p, m).normalValid
    ensures (m.ResizeTo? || m.ResizeBy?) ==> !Apply(p, m).modelValid && !Apply(p, m).normalValid
  {
  }

  class SpatialComponent {
    var position: Vec3
    var scale: Vec3
    var rotation: Mat3
    var transformed: bool
    var modelMatrix: ModelMatrix
    var normalMatrix: NormalMatrix
    var modelMatrixValid: bool
    var normalMatrixValid: bool

    function Pose(): Pose
      reads this
    {
      Transforms.Pose(position, scale, rotation, modelMatrix, normalMatrix, modelMatrixValid, normalMatrixValid)
    }

    function State(): Spatial
      reads this
    {
      Spatial(Pose(), transformed)
    }

    predicate Valid()
      reads this
    {
      Coherent(Pose())
    }

    /** The default constructor: both caches invalid. */
    constructor ()
      ensures State() == Spatial(Initial(), false) && Valid()
    {
      position, scale, rotation := Zero, One, Identity;
      transformed := false;
      modelMatrix, normalMatrix := IdentityModel, IdentityNormal;
      modelMatrixValid, normalMatrixValid := false, false;
    }

    /** The argument constructor: both matrices computed, both valid. */
    constructor At(loc: Vec3, scale: Vec3, rot: Mat3)
      ensures State() == Spatial(Placed(loc, scale, rot), false) && Valid()
    {
      position, this.scale, rotation := loc, scale, rot;
      transformed := false;
      modelMatrix := ModelMatrix(loc, scale, rot);
      normalMatrix := NormalMatrix(rot, scale);
      modelMatrixValid, normalMatrixValid := true, true;
    }

    /** update: clears `transformed` only. */
    method Update(dt: real)
      modifies this
      ensures State() == old(State()).(transformed := false)
    {
      transformed := false;
    }

    method SetPosition(loc: Vec3)
      requires Valid()
      modifies this
      ensures State() == Mutate(old(State()), MoveTo(loc)) && Valid()
    {
      position := loc;
      modelMatrixValid := false;
      transformed := true;
    }

    method Move(delta: Vec3)
      requires Valid()
      modifies this
      ensures State() == Mutate(old(State()), MoveBy(delta)) && Valid()
    {
      position := Add(position, delta);
      modelMatrixValid := false;
      transformed := true;
    }

    method SetScale(scale: Vec3)
      requires Valid()
      modifies this
      ensures State() == Mutate(old(State()), ResizeTo(scale)) && Valid()
    {
      this.scale := scale;
      modelMatrixValid := false;
      normalMatrixValid := false;
      transformed := true;
    }

    method ScaleBy(factor: Vec3)
      requires Valid()
      modifies this
      ensures State() == Mutate(old(State()), ResizeBy(factor)) && Valid()
    {
      scale := Mul(scale, factor);
      modelMatrixValid := false;
      normalMatrixValid := false;
      transformed := true;
    }

    /** Corrected: also invalidates the model matrix. */
    method SetRotation(rot: Mat3)
      requires Valid()
      modifies this
      ensures State() == Mutate(old(State()), TurnTo(rot)) && Valid()
    {
      rotation := rot;
      modelMatrixValid := false;
      normalMatrixValid := false;
      transformed := true;
    }

    /** Corrected: also invalidates the model matrix. */
    method Rotate(mat: Mat3)
      requires Valid()
      modifies this
      ensures State() == Mutate(old(State()), TurnBy(mat)) && Valid()
    {
      rotation := MatMul(mat, rotation);
      modelMatrixValid := false;
      normalMatrixValid := false;
      transformed := true;
    }

    /** modelMatrix(): the matrix of the current position, scale and
        rotation, recomputed only when invalid. */
    method GetModelMatrix() returns (m: ModelMatrix)
      requires Valid()
      modifies this
      ensures State() == Spatial(ModelFetched(old(Pose())), old(transformed)) && Valid()
      ensures m == ModelMatrix(position, scale, rotation) && modelMatrixValid
    {
      if !modelMatrixValid {
        modelMatrix := ModelMatrix(position, scale, rotation);
        modelMatrixValid := true;
      }
      m := modelMatrix;
    }

    /** normalMatrix(): the matrix of the current rotation and scale,
        recomputed only when invalid. */
    method GetNormalMatrix() returns (m: NormalMatrix)
      requires Valid()
      modifies this
      ensures State() == Spatial(NormalFetched(old(Pose())), old(transformed)) && Valid()
      ensures m == NormalMatrix(rotation, scale) && normalMatrixValid
    {
      if !normalMatrixValid {
        normalMatrix := NormalMatrix(rotation, scale);
        normalMatrixValid := true;
      }
      m := normalMatrix;
    }
  }
}
