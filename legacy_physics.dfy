/** The velocity update of the older plugin: the same friction and
    acceleration scheme as the newer one, without the ground-normal factor, the
    speed cap, the slope projection or the write-back of `move.velocity.z`, and
    with its own air constants. Its hook runs for the player's controller only. */
module LegacyPhysics {
  import opened VectorMath
  import opened Engine
  import opened VelocityStep

  const FrictionFactor: real := 5.0
  const AccelerationFactor: real := 6.0
  const AirAccelerationFactor: real := 10.0
  const StopSpeed: real := 8.0
  /** `.1f`, read as the real 0.1. */
  const AirSpeedFactor: real := 0.1
  /** `1e-4f`, read as the real 0.0001. */
  const MinMoveLength: real := 0.0001

  // --------------------------------------------------------------- friction

  /** `fFriction * max(speed, fStopSpeed) * deltaTime`. */
  function FrictionAmount(speed: real, deltaTime: real): real {
    FrictionFactor * Max(speed, StopSpeed) * deltaTime
  }

  /** The scaling branch divides by the speed; this holds when that branch is
      not reached with a zero speed. */
  predicate FrictionDefined(sqrt: real -> real, v: Vec4, deltaTime: real) {
    var speed := Length(sqrt, Xyz(v));
    speed != 0.0 || FrictionAmount(speed, deltaTime) >= speed
  }

  /** The velocity after ApplyFriction. */
  function AfterFriction(sqrt: real -> real, v: Vec4, deltaTime: real): Vec4
    requires FrictionDefined(sqrt, v, deltaTime)
  {
    var speed := Length(sqrt, Xyz(v));
    var friction := FrictionAmount(speed, deltaTime);
    if friction >= speed then Zero4 else Scale4(v, 1.0 - friction / speed)
  }

  method ApplyFriction(sqrt: real -> real, velocity: AlignedVector4, deltaTime: real)
    requires FrictionDefined(sqrt, velocity.Value(), deltaTime)
    modifies velocity
    ensures velocity.Value() == AfterFriction(sqrt, old(velocity.Value()), deltaTime)
  {
    var speed := Length(sqrt, Xyz(velocity.Value()));
    var friction := FrictionFactor * Max(speed, StopSpeed) * deltaTime;
    if friction >= speed {
      velocity.Assign(Zero4);
    } else {
      velocity.MulAssign(1.0 - friction / speed);
    }
  }

  /** A time step that is not negative gives a friction that is not negative,
      so the scaling branch is never reached at speed 0. */
  lemma FrictionDefinedWhenNonNegative(sqrt: real -> real, v: Vec4, deltaTime: real)
    requires IsSqrt(sqrt) && !(deltaTime < 0.0)
    ensures !(FrictionAmount(Length(sqrt, Xyz(v)), deltaTime) < 0.0)
    ensures FrictionDefined(sqrt, v, deltaTime)
  {
    var speed := Length(sqrt, Xyz(v));
    LengthSquared(sqrt, Xyz(v));
    assert FrictionAmount(speed, deltaTime) == Mul(FrictionFactor * Max(speed, StopSpeed), deltaTime);
    MulNonNegative(FrictionFactor * Max(speed, StopSpeed), deltaTime);
  }

  /** Friction takes the speed down by the friction amount, and to exactly 0
      when the amount reaches the speed. */
  lemma FrictionSpeed(sqrt: real -> real, v: Vec4, deltaTime: real)
    requires IsSqrt(sqrt) && FrictionDefined(sqrt, v, deltaTime)
    ensures var speed := Length(sqrt, Xyz(v));
            Length(sqrt, Xyz(AfterFriction(sqrt, v, deltaTime))) == Max(speed - FrictionAmount(speed, deltaTime), 0.0)
  {
    var speed := Length(sqrt, Xyz(v));
    StepSpeed(sqrt, v, speed, FrictionAmount(speed, deltaTime));
  }

  /** At speed 10, one second of friction (5 * 10 * 1 = 50) stops the
      velocity outright. */
  lemma FrictionStopsExample(sqrt: real -> real, v: Vec4)
    requires IsSqrt(sqrt) && Length(sqrt, Xyz(v)) == 10.0
    ensures FrictionDefined(sqrt, v, 1.0)
    ensures FrictionAmount(10.0, 1.0) == 50.0
    ensures AfterFriction(sqrt, v, 1.0) == Zero4
  {
  }

  // ----------------------------------------------------------- acceleration

  /** `maxSpeed`: the input length, a tenth of it in the air. */
  function TargetSpeed(state: StateType, moveLength: real): real {
    if state == InAir then moveLength * AirSpeedFactor else moveLength
  }

  /** `accelMultiplier * moveLength * deltaTime`. */
  function AccelerationAmount(state: StateType, moveLength: real, deltaTime: real): real {
    (if state == InAir then AirAccelerationFactor else AccelerationFactor) * moveLength * deltaTime
  }

  /** The velocity after ApplyAcceleration: one step of `min(accel, maxSpeed -
      speed)` along the move vector when below the target speed, and no cap. */
  function AfterAcceleration(v: Vec4, state: StateType, moveVector: Vec3, moveLength: real, deltaTime: real): Vec4 {
    var speed := Dot(Xyz(v), moveVector);
    var maxSpeed := TargetSpeed(state, moveLength);
    if speed < maxSpeed then
      AccelerationStep(v, moveVector,
                       Min(AccelerationAmount(state, moveLength, deltaTime), maxSpeed - speed))
    else v
  }

  method ApplyAcceleration(velocity: AlignedVector4, state: StateType, moveVector: Vec3, moveLength: real,
                           deltaTime: real)
    modifies velocity
    ensures velocity.Value() == AfterAcceleration(old(velocity.Value()), state, moveVector, moveLength, deltaTime)
  {
    var inAir := state == InAir;
    var speed := Dot(Xyz(velocity.Value()), moveVector);
    var maxSpeed := if inAir then moveLength * AirSpeedFactor else moveLength;
    if speed < maxSpeed {
      var accelMultiplier := if inAir then AirAccelerationFactor else AccelerationFactor;
      var accel := accelMultiplier * moveLength * deltaTime;
      assert accel == AccelerationAmount(state, moveLength, deltaTime);
      velocity.AddAssignXyz(Scale3(moveVector, Min(accel, maxSpeed - speed)));
    }
  }

  /** At or above the target speed along the move direction nothing changes. */
  lemma AccelerationAtTarget(v: Vec4, state: StateType, moveVector: Vec3, moveLength: real, deltaTime: real)
    requires Dot(Xyz(v), moveVector) >= TargetSpeed(state, moveLength)
    ensures AfterAcceleration(v, state, moveVector, moveLength, deltaTime) == v
  {
  }

  /** For a unit move vector below the target speed, the speed along it grows
      by exactly the step and ends at most at the target. */
  lemma AccelerationAlongMove(v: Vec4, state: StateType, moveVector: Vec3, moveLength: real, deltaTime: real)
    requires Dot(moveVector, moveVector) == 1.0
    ensures var speed := Dot(Xyz(v), moveVector);
            var maxSpeed := TargetSpeed(state, moveLength);
            var after := Dot(Xyz(AfterAcceleration(v, state, moveVector, moveLength, deltaTime)), moveVector);
            && (speed < maxSpeed ==>
                  after == speed + Min(AccelerationAmount(state, moveLength, deltaTime), maxSpeed - speed))
            && after <= Max(maxSpeed, speed)
  {
    var speed := Dot(Xyz(v), moveVector);
    var maxSpeed := TargetSpeed(state, moveLength);
    if speed < maxSpeed {
      StepAlongMove(v, moveVector,
                    Min(AccelerationAmount(state, moveLength, deltaTime), maxSpeed - speed));
    }
  }

  // ------------------------------------------------------------ move vector

  /** The inline move vector: the input divided by its length, combined with
      forward, `right = forward x up` and up, and not normalized again. */
  function MoveVector(sqrt: real -> real, move: MoveParams): Vec3
    requires IsSqrt(sqrt) && MinMoveLength <= Length(sqrt, Xyz(move.input))
  {
    var moveLength := Length(sqrt, Xyz(move.input));
    var input := Scale4(move.input, 1.0 / moveLength);
    var forward := Xyz(move.forward);
    var up := Xyz(move.up);
    Combine(forward, Cross(forward, up), up, -input.x, input.y, input.z)
  }

  /** Forward and up are orthonormal. */
  predicate Orthonormal(move: MoveParams) {
    && Dot(Xyz(move.forward), Xyz(move.forward)) == 1.0
    && Dot(Xyz(move.up), Xyz(move.up)) == 1.0
    && Dot(Xyz(move.forward), Xyz(move.up)) == 0.0
  }

  /** Combining an orthonormal forward and up with a unit input: the squared
      length of the combination is the input's. */
  lemma CombinationLength(move: MoveParams, a: real, b: real, c: real)
    requires Orthonormal(move)
    ensures var forward := Xyz(move.forward);
            var up := Xyz(move.up);
            var m := Combine(forward, Cross(forward, up), up, a, b, c);
            Dot(m, m) == Sq(a) + Sq(b) + Sq(c)
  {
    var forward := Xyz(move.forward);
    var up := Xyz(move.up);
    CrossOfOrthonormal(forward, up);
    DotSymmetric(Cross(forward, up), forward);
    DotSymmetric(Cross(forward, up), up);
    OrthonormalCombination(forward, Cross(forward, up), up, a, b, c);
  }

  /** The input divided by its length has unit length. */
  lemma UnitInput(sqrt: real -> real, input: Vec4)
    requires IsSqrt(sqrt) && 0.0 < Length(sqrt, Xyz(input))
    ensures var n := Scale4(input, 1.0 / Length(sqrt, Xyz(input)));
            Sq(-n.x) + Sq(n.y) + Sq(n.z) == 1.0
  {
    var l := Length(sqrt, Xyz(input));
    var k := 1.0 / l;
    var n := Scale4(input, k);
    XyzScale4(input, k);
    DotSelfSq(Xyz(n));
    DotScaleSelf(Xyz(input), k);
    LengthSquared(sqrt, Xyz(input));
    InverseTimes(l);
    SqMul(k, l);
    assert Sq(-n.x) == Sq(n.x);
  }

  /** With an orthonormal forward and up the move vector is a unit vector. */
  lemma MoveVectorUnit(sqrt: real -> real, move: MoveParams)
    requires IsSqrt(sqrt) && MinMoveLength <= Length(sqrt, Xyz(move.input)) && Orthonormal(move)
    ensures Dot(MoveVector(sqrt, move), MoveVector(sqrt, move)) == 1.0
    ensures Length(sqrt, MoveVector(sqrt, move)) == 1.0
  {
    var n := Scale4(move.input, 1.0 / Length(sqrt, Xyz(move.input)));
    UnitInput(sqrt, move.input);
    CombinationLength(move, -n.x, n.y, n.z);
    SqrtOfSquare(sqrt, 1.0);
  }

  // ----------------------------------------------------------------- update

  /** The velocity after UpdateVelocity. */
  function AfterUpdate(sqrt: real -> real, move: MoveParams, v: Vec4, state: StateType, deltaTime: real): Vec4
    requires IsSqrt(sqrt)
    requires state != InAir ==> FrictionDefined(sqrt, v, deltaTime)
  {
    var afterFriction := if state != InAir then AfterFriction(sqrt, v, deltaTime) else v;
    var moveLength := Length(sqrt, Xyz(move.input));
    if moveLength < MinMoveLength then afterFriction
    else AfterAcceleration(afterFriction, state, MoveVector(sqrt, move), moveLength, deltaTime)
  }

  method UpdateVelocity(sqrt: real -> real, move: MoveParams, velocity: AlignedVector4, state: StateType,
                        deltaTime: real)
    requires IsSqrt(sqrt)
    requires state != InAir ==> FrictionDefined(sqrt, velocity.Value(), deltaTime)
    modifies velocity
    ensures velocity.Value() == AfterUpdate(sqrt, move, old(velocity.Value()), state, deltaTime)
  {
    if state != InAir {
      ApplyFriction(sqrt, velocity, deltaTime);
    }
    var moveLength := Length(sqrt, Xyz(move.input));
    if moveLength < MinMoveLength {
      return;
    }
    var input := Scale4(move.input, 1.0 / moveLength);
    var forward := Xyz(move.forward);
    var up := Xyz(move.up);
    var right := Cross(forward, up);
    var moveVector := Combine(forward, right, up, -input.x, input.y, input.z);
    ApplyAcceleration(velocity, state, moveVector, moveLength, deltaTime);
  }

  /** Without input the update is friction alone, and in the air not even that. */
  lemma UpdateWithoutInput(sqrt: real -> real, move: MoveParams, v: Vec4, state: StateType, deltaTime: real)
    requires IsSqrt(sqrt)
    requires state != InAir ==> FrictionDefined(sqrt, v, deltaTime)
    requires Length(sqrt, Xyz(move.input)) < MinMoveLength
    ensures AfterUpdate(sqrt, move, v, state, deltaTime) == if state == InAir then v else AfterFriction(sqrt, v, deltaTime)
  {
  }

  /** With an orthonormal forward and up, the speed along the move direction
      after the update is at most the larger of the target speed and the speed
      along it after friction. */
  lemma UpdateAlongMove(sqrt: real -> real, move: MoveParams, v: Vec4, state: StateType, deltaTime: real)
    requires IsSqrt(sqrt) && Orthonormal(move)
    requires state != InAir ==> FrictionDefined(sqrt, v, deltaTime)
    requires MinMoveLength <= Length(sqrt, Xyz(move.input))
    ensures var afterFriction := if state != InAir then AfterFriction(sqrt, v, deltaTime) else v;
            var moveVector := MoveVector(sqrt, move);
            Dot(Xyz(AfterUpdate(sqrt, move, v, state, deltaTime)), moveVector)
              <= Max(TargetSpeed(state, Length(sqrt, Xyz(move.input))), Dot(Xyz(afterFriction), moveVector))
  {
    var afterFriction := if state != InAir then AfterFriction(sqrt, v, deltaTime) else v;
    MoveVectorUnit(sqrt, move);
    AccelerationAlongMove(afterFriction, state, MoveVector(sqrt, move), Length(sqrt, Xyz(move.input)), deltaTime);
  }

  // ------------------------------------------------------------------- hook

  /** The velocity after hook_MoveCharacter. `isPlayer` says whether the
      controller is the player's; `original` is the engine routine the hook
      replaces. `move` is read only. */
  function AfterMoveCharacter(sqrt: real -> real, isPlayer: bool, state: StateType, deltaTime: real,
                              move: MoveParams, v: Vec4, original: (MoveParams, Vec4) -> Vec4): Vec4
    requires IsSqrt(sqrt)
    requires isPlayer && state != InAir ==> FrictionDefined(sqrt, Sub4(v, move.surfaceVelocity), deltaTime)
  {
    if !isPlayer then original(move, v)
    else Add4(AfterUpdate(sqrt, move, Sub4(v, move.surfaceVelocity), state, deltaTime), move.surfaceVelocity)
  }

  method HookMoveCharacter(sqrt: real -> real, isPlayer: bool, state: StateType, deltaTime: real,
                           move: MoveParams, velocity: AlignedVector4, original: (MoveParams, Vec4) -> Vec4)
    requires IsSqrt(sqrt)
    requires isPlayer && state != InAir ==> FrictionDefined(sqrt, Sub4(velocity.Value(), move.surfaceVelocity), deltaTime)
    modifies velocity
    ensures velocity.Value() == AfterMoveCharacter(sqrt, isPlayer, state, deltaTime, move, old(velocity.Value()), original)
  {
    if !isPlayer {
      velocity.Assign(original(move, velocity.Value()));
      return;
    }
    velocity.SubAssign(move.surfaceVelocity);
    UpdateVelocity(sqrt, move, velocity, state, deltaTime);
    velocity.AddAssign(move.surfaceVelocity);
  }

  /** For the player, the velocity relative to the surface is what UpdateVelocity
      makes of the relative velocity before the hook. */
  lemma HookSurfaceRelative(sqrt: real -> real, state: StateType, deltaTime: real, move: MoveParams, v: Vec4,
                            original: (MoveParams, Vec4) -> Vec4)
    requires IsSqrt(sqrt)
    requires state != InAir ==> FrictionDefined(sqrt, Sub4(v, move.surfaceVelocity), deltaTime)
    ensures Sub4(AfterMoveCharacter(sqrt, true, state, deltaTime, move, v, original), move.surfaceVelocity)
         == AfterUpdate(sqrt, move, Sub4(v, move.surfaceVelocity), state, deltaTime)
  {
  }

  /** For the player with an orthonormal forward and up, the speed along the
      move direction relative to the surface after the hook is at most the
      larger of the target speed and that relative speed after friction. */
  lemma HookRelativeAlongMove(sqrt: real -> real, state: StateType, deltaTime: real, move: MoveParams, v: Vec4,
                              original: (MoveParams, Vec4) -> Vec4)
    requires IsSqrt(sqrt) && Orthonormal(move)
    requires state != InAir ==> FrictionDefined(sqrt, Sub4(v, move.surfaceVelocity), deltaTime)
    requires MinMoveLength <= Length(sqrt, Xyz(move.input))
    ensures var relative := Sub4(v, move.surfaceVelocity);
            var afterFriction := if state != InAir then AfterFriction(sqrt, relative, deltaTime) else relative;
            var moveVector := MoveVector(sqrt, move);
            var after := AfterMoveCharacter(sqrt, true, state, deltaTime, move, v, original);
            Dot(Xyz(Sub4(after, move.surfaceVelocity)), moveVector)
              <= Max(TargetSpeed(state, Length(sqrt, Xyz(move.input))), Dot(Xyz(afterFriction), moveVector))
  {
    var relative := Sub4(v, move.surfaceVelocity);
    HookSurfaceRelative(sqrt, state, deltaTime, move, v, original);
    UpdateAlongMove(sqrt, move, relative, state, deltaTime);
  }
}
