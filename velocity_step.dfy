/** The two velocity steps both versions of the update share: the friction
    step that stops or rescales the velocity, and the acceleration step
    `*velocity += moveVector * step` along the move direction. */
module VelocityStep {
  import opened VectorMath

  // ---------------------------------------------------------------- friction

  /** The friction scale factor 1 - friction/speed, for friction below a
      positive speed. */
  lemma ScaleFactorFacts(speed: real, friction: real)
    requires 0.0 < speed && friction < speed
    ensures 0.0 < 1.0 - friction / speed
    ensures Mul(1.0 - friction / speed, speed) == speed - friction
    ensures (speed - friction) / speed == 1.0 - friction / speed
  {
    assert (speed - friction) / speed == speed / speed - friction / speed;
  }

  /** Scaling a four-lane velocity of speed `speed` by 1 - friction/speed, with
      friction below the speed, leaves speed - friction. */
  lemma ScaledSpeed(sqrt: real -> real, v: Vec4, speed: real, friction: real)
    requires IsSqrt(sqrt) && speed == Length(sqrt, Xyz(v)) && 0.0 < speed && friction < speed
    ensures Length(sqrt, Xyz(Scale4(v, 1.0 - friction / speed))) == speed - friction
  {
    ScaleFactorFacts(speed, friction);
    var k := 1.0 - friction / speed;
    XyzScale4(v, k);
    LengthScale(sqrt, Xyz(v), k);
  }

  /** The friction step, zero when the friction reaches the speed and a
      rescaling otherwise, leaves the speed max(speed - friction, 0). */
  lemma StepSpeed(sqrt: real -> real, v: Vec4, speed: real, friction: real)
    requires IsSqrt(sqrt) && speed == Length(sqrt, Xyz(v)) && (speed != 0.0 || friction >= speed)
    ensures Length(sqrt, Xyz(if friction >= speed then Zero4 else Scale4(v, 1.0 - friction / speed)))
              == Max(speed - friction, 0.0)
  {
    if friction >= speed {
      LengthOfZero(sqrt);
      assert Xyz(Zero4) == Zero3;
    } else {
      LengthSquared(sqrt, Xyz(v));
      ScaledSpeed(sqrt, v, speed, friction);
    }
  }

  // ------------------------------------------------------------ acceleration

  /** `*velocity += moveVector * step`: a three-lane addition. */
  function AccelerationStep(v: Vec4, moveVector: Vec3, step: real): Vec4 {
    AddXyz(v, Scale3(moveVector, step))
  }

  /** Along a unit move direction, a step adds exactly its size to the speed. */
  lemma StepAlongMove(v: Vec4, moveVector: Vec3, step: real)
    requires Dot(moveVector, moveVector) == 1.0
    ensures Dot(Xyz(AccelerationStep(v, moveVector, step)), moveVector) == Dot(Xyz(v), moveVector) + step
  {
    assert Xyz(AccelerationStep(v, moveVector, step)) == Add3(Xyz(v), Scale3(moveVector, step));
    DotAdd(Xyz(v), Scale3(moveVector, step), moveVector);
    DotScale(moveVector, step, moveVector);
  }
}
