/** A `Transform`: position, scale and rotation with two lazily computed
    matrices. Each matrix has a validity flag; a mutator clears the flag
    of every matrix that depends on what it changed, and a getter
    recomputes its matrix only when the flag is clear.

    The glm matrix arithmetic is not modelled: a computed matrix is
    identified by the inputs it was computed from, which is all the cache
    protocol depends on. */
module Transforms {
  import opened Vectors

  /** detModelMatrix: translate(mat4(rotation) * scale(scale), position). */
  datatype ModelMatrix = ModelMatrix(position: Vec3, scale: Vec3, rotation: Mat3)

  /** detNormalMatrix: rotation * mat3(scale(1 / scale)). */
  datatype NormalMatrix = NormalMatrix(rotation: Mat3, scale: Vec3)

  /** The identity matrices glm default-constructs. */
  const IdentityModel := ModelMatrix(Zero, One, Identity)
  const IdentityNormal := NormalMatrix(Identity, One)

  /** The fields of a transform, caches included. */
  datatype Pose = Pose(position: Vec3, scale: Vec3, rotation: Mat3,
                       model: ModelMatrix, normal: NormalMatrix,
                       modelValid: bool, normalValid: bool)

  /** A cache marked valid holds the matrix of the current inputs. */
  predicate Coherent(p: Pose)
  {
    (p.modelValid ==> p.model == ModelMatrix(p.position, p.scale, p.rotation)) &&
    (p.normalValid ==> p.normal == NormalMatrix(p.rotation, p.scale))
  }

  /** The default constructor: origin, unit scale, identity rotation,
      both caches invalid. */
  function Initial(): (p: Pose)
    ensures Coherent(p) && !p.modelValid && !p.normalValid
  {
    Pose(Zero, One, Identity, IdentityModel, IdentityNormal, false, false)
  }

  /** The argument constructor: both matrices computed at once. */
  function Placed(loc: Vec3, scale: Vec3, rot: Mat3): (p: Pose)
    ensures Coherent(p) && p.modelValid && p.normalValid
    ensures p.position == loc && p.scale == scale && p.rotation == rot
  {
    Pose(loc, scale, rot, ModelMatrix(loc, scale, rot), NormalMatrix(rot, scale), true, true)
  }

  /** setPosition: only the model matrix depends on the position. */
  function WithPosition(p: Pose, loc: Vec3): Pose
  {
    p.(position := loc, modelValid := false)
  }

  /** move: the same, by a delta. */
  function Moved(p: Pose, delta: Vec3): Pose
  {
    p.(position := Add(p.position, delta), modelValid := false)
  }

  /** setScale: both matrices depend on the scale. */
  function WithScale(p: Pose, scale: Vec3): Pose
  {
    p.(scale := scale, modelValid := false, normalValid := false)
  }

  /** scale(factor): component-wise, invalidating both matrices. */
  function ScaledBy(p: Pose, factor: Vec3): Pose
  {
    p.(scale := Mul(p.scale, factor), modelValid := false, normalValid := false)
  }

  /** setRotation as the source writes it: only the normal matrix is
      invalidated, although the model matrix is built from the rotation
      too. */
  function WithRotationAsWritten(p: Pose, rot: Mat3): Pose
  {
    p.(rotation := rot, normalValid := false)
  }

  /** setRotation as intended: both matrices are invalidated. */
  function WithRotation(p: Pose, rot: Mat3): Pose
  {
    p.(rotation := rot, modelValid := false, normalValid := false)
  }

  /** rotate(mat): the rotation is premultiplied by mat; invalidates as
      setRotation does. */
  function Rotated(p: Pose, mat: Mat3): Pose
  {
    WithRotation(p, MatMul(mat, p.rotation))
  }

  /** modelMatrix(): recompute when invalid, then the flag is set. */
  function ModelFetched(p: Pose): Pose
  {
    if p.modelValid then p else p.(model := ModelMatrix(p.position, p.scale, p.rotation), modelValid := true)
  }

  /** normalMatrix(): recompute when invalid, then the flag is set. */
  function NormalFetched(p: Pose): Pose
  {
    if p.normalValid then p else p.(normal := NormalMatrix(p.rotation, p.scale), normalValid := true)
  }

  /** Every mutator with the corrected setRotation keeps the caches
      coherent, and each clears exactly the flags of the matrices that
      depend on what it changed. */
  lemma MutatorsKeepCoherent(p: Pose, v: Vec3, m: Mat3)
    requires Coherent(p)
    ensures Coherent(WithPosition(p, v)) && Coherent(Moved(p, v))
    ensures Coherent(WithScale(p, v)) && Coherent(ScaledBy(p, v))
    ensures Coherent(WithRotation(p, m)) && Coherent(Rotated(p, m))
    ensures WithPosition(p, v).normalValid == p.normalValid && Moved(p, v).normalValid == p.normalValid
  {
  }

  /** The getters hand back the matrix of the current inputs, leave their
      flag set, touch nothing else, and a second call changes nothing. */
  lemma GettersReturnCurrent(p: Pose)
    requires Coherent(p)
    ensures Coherent(ModelFetched(p)) && ModelFetched(p).modelValid
    ensures ModelFetched(p).model == ModelMatrix(p.position, p.scale, p.rotation)
    ensures ModelFetched(ModelFetched(p)) == ModelFetched(p)
    ensures Coherent(NormalFetched(p)) && NormalFetched(p).normalValid
    ensures NormalFetched(p).normal == NormalMatrix(p.rotation, p.scale)
    ensures NormalFetched(NormalFetched(p)) == NormalFetched(p)
    ensures ModelFetched(p).normalValid == p.normalValid && NormalFetched(p).modelValid == p.modelValid
  {
  }

  /** A quarter turn about the z axis. */
  const QuarterTurn := Mat3(Vec3(0.0, 1.0, 0.0), Vec3(-1.0, 0.0, 0.0), Vec3(0.0, 0.0, 1.0))

  /** As written, setRotation after the argument constructor leaves a
      stale model matrix: modelMatrix() keeps returning the unrotated
      matrix. */
  lemma StaleModelAfterRotation()
    ensures Coherent(Placed(Zero, One, Identity))
    ensures !Coherent(WithRotationAsWritten(Placed(Zero, One, Identity), QuarterTurn))
    ensures ModelFetched(WithRotationAsWritten(Placed(Zero, One, Identity), QuarterTurn)).model
         != ModelMatrix(Zero, One, QuarterTurn)
  {
    assert QuarterTurn != Identity by {
      assert QuarterTurn.c0.x != Identity.c0.x;
    }
  }

  class Transform {
    var position: Vec3
    var scale: Vec3
    var rotation: Mat3
    var modelMatrix: ModelMatrix
    var normalMatrix: NormalMatrix
    var modelMatrixValid: bool
    var normalMatrixValid: bool

    function State(): Pose
      reads this
    {
      Pose(position, scale, rotation, modelMatrix, normalMatrix, modelMatrixValid, normalMatrixValid)
    }

    predicate Valid()
      reads this
    {
      Coherent(State())
    }

    constructor ()
      ensures State() == Initial() && Valid()
    {
      position, scale, rotation := Zero, One, Identity;
      modelMatrix, normalMatrix := IdentityModel, IdentityNormal;
      modelMatrixValid, normalMatrixValid := false, false;
    }

    constructor At(loc: Vec3, scale: Vec3, rot: Mat3)
      ensures State() == Placed(loc, scale, rot) && Valid()
    {
      position, this.scale, rotation := loc, scale, rot;
      modelMatrix := ModelMatrix(loc, scale, rot);
      normalMatrix := NormalMatrix(rot, scale);
      modelMatrixValid, normalMatrixValid := true, true;
    }

    method SetPosition(loc: Vec3)
      requires Valid()
      modifies this
      ensures State() == WithPosition(old(State()), loc) && Valid()
    {
      position := loc;
      modelMatrixValid := false;
    }

    method Move(delta: Vec3)
      requires Valid()
      modifies this
      ensures State() == Moved(old(State()), delta) && Valid()
    {
      position := Add(position, delta);
      modelMatrixValid := false;
    }

    method SetScale(scale: Vec3)
      requires Valid()
      modifies this
      ensures State() == WithScale(old(State()), scale) && Valid()
    {
      this.scale := scale;
      modelMatrixValid := false;
      normalMatrixValid := false;
    }

    method ScaleBy(factor: Vec3)
      requires Valid()
      modifies this
      ensures State() == ScaledBy(old(State()), factor) && Valid()
    {
      scale := Mul(scale, factor);
      modelMatrixValid := false;
      normalMatrixValid := false;
    }

    /** Corrected: also invalidates the model matrix. */
    method SetRotation(rot: Mat3)
      requires Valid()
      modifies this
      ensures State() == WithRotation(old(State()), rot) && Valid()
    {
      rotation := rot;
      modelMatrixValid := false;
      normalMatrixValid := false;
    }

    /** Corrected: also invalidates the model matrix. */
    method Rotate(mat: Mat3)
      requires Valid()
      modifies this
      ensures State() == Rotated(old(State()), mat) && Valid()
    {
      rotation := MatMul(mat, rotation);
      modelMatrixValid := false;
      normalMatrixValid := false;
    }

    /** modelMatrix(): the matrix of the current position, scale and
        rotation. */
    method GetModelMatrix() returns (m: ModelMatrix)
      requires Valid()
      modifies this
      ensures State() == ModelFetched(old(State())) && Valid()
      ensures m == ModelMatrix(position, scale, rotation) && modelMatrixValid
    {
      if !modelMatrixValid {
        modelMatrix := ModelMatrix(position, scale, rotation);
        modelMatrixValid := true;
      }
      m := modelMatrix;
    }

    /** normalMatrix(): the matrix of the current rotation and scale. */
    method GetNormalMatrix() returns (m: NormalMatrix)
      requires Valid()
      modifies this
      ensures State() == NormalFetched(old(State())) && Valid()
      ensures m == NormalMatrix(rotation, scale) && normalMatrixValid
    {
      if !normalMatrixValid {
        normalMatrix := NormalMatrix(rotation, scale);
        normalMatrixValid := true;
      }
      m := normalMatrix;
    }
  }
}
