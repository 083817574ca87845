/** The per-tick velocity update of the player-physics plugin (src/main.cpp):
    ground friction scaled by the ground normal, acceleration toward a target
    speed with a speed cap, a move direction projected onto slopes, and the move
    hook that runs the update relative to the surface the character stands on. */
module PlayerPhysics {
  import opened VectorMath
  import opened Engine
  import opened VelocityStep

  const FrictionFactor: real := 5.0
  const AccelerationFactor: real := 6.0
  const AirAccelerationFactor: real := 1.0
  const StopSpeed: real := 8.0
  const AirSpeedFactor: real := 1.0

  /** The input length below which no acceleration is applied (1e-4). */
  const MinMoveLength: real := 0.0001

  /** How far the ground normal's z must be from 0 and from 1 for the move
      direction to be projected onto the slope (1e-4). */
  const SlopeEpsilon: real := 0.0001

  // ---------------------------------------------------------------- friction

  /** `fFriction * max(speed, fStopSpeed) * groundNormal.z * deltaTime`. */
  function FrictionAmount(speed: real, normalZ: real, deltaTime: real): real {
    FrictionFactor * Max(speed, StopSpeed) * normalZ * deltaTime
  }

  /** The scaling branch of the friction step divides by the speed; this holds
      when that branch is not reached with a zero speed. */
  predicate FrictionDefined(sqrt: real -> real, v: Vec4, normalZ: real, deltaTime: real) {
    var speed := Length(sqrt, Xyz(v));
    speed != 0.0 || FrictionAmount(speed, normalZ, deltaTime) >= speed
  }

  /** The velocity after ApplyFriction. */
  function AfterFriction(sqrt: real -> real, v: Vec4, normalZ: real, deltaTime: real): Vec4
    requires FrictionDefined(sqrt, v, normalZ, deltaTime)
  {
    var speed := Length(sqrt, Xyz(v));
    var friction := FrictionAmount(speed, normalZ, deltaTime);
    if friction >= speed then Zero4 else Scale4(v, 1.0 - friction / speed)
  }

  method ApplyFriction(sqrt: real -> real, move: MoveParams, velocity: AlignedVector4, deltaTime: real)
    requires FrictionDefined(sqrt, velocity.Value(), move.groundNormal.z, deltaTime)
    modifies velocity
    ensures velocity.Value() == AfterFriction(sqrt, old(velocity.Value()), move.groundNormal.z, deltaTime)
  {
    var speed := Length(sqrt, Xyz(velocity.Value()));
    var scaleSpeed := Max(speed, StopSpeed);
    var friction := FrictionFactor * scaleSpeed * move.groundNormal.z * deltaTime;
    assert friction == FrictionAmount(speed, move.groundNormal.z, deltaTime);
    if friction >= speed {
      velocity.Assign(Zero4);
    } else {
      velocity.MulAssign(1.0 - friction / speed);
    }
  }

  /** With the ground normal and the time step of the same sign the friction is
      non-negative, and it is positive when both are non-zero. */
  lemma FrictionSign(speed: real, normalZ: real, deltaTime: real)
    requires !(Mul(normalZ, deltaTime) < 0.0)
    ensures !(FrictionAmount(speed, normalZ, deltaTime) < 0.0)
    ensures 0.0 < Mul(normalZ, deltaTime) ==> 0.0 < FrictionAmount(speed, normalZ, deltaTime)
  {
    var m := Max(speed, StopSpeed);
    assert FrictionAmount(speed, normalZ, deltaTime) == Mul(FrictionFactor * m, Mul(normalZ, deltaTime));
    MulNonNegative(FrictionFactor * m, Mul(normalZ, deltaTime));
    if 0.0 < Mul(normalZ, deltaTime) {
      MulPositive(FrictionFactor * m, Mul(normalZ, deltaTime));
    }
  }

  /** The division in the friction step is safe whenever the ground normal and
      the time step do not have opposite signs. */
  lemma FrictionDefinedWhenNonNegative(sqrt: real -> real, v: Vec4, normalZ: real, deltaTime: real)
    requires IsSqrt(sqrt) && !(Mul(normalZ, deltaTime) < 0.0)
    ensures FrictionDefined(sqrt, v, normalZ, deltaTime)
  {
    LengthSquared(sqrt, Xyz(v));
    FrictionSign(Length(sqrt, Xyz(v)), normalZ, deltaTime);
  }

  /** Friction takes the speed down by the friction amount, stopping at zero. */
  lemma FrictionSpeed(sqrt: real -> real, v: Vec4, normalZ: real, deltaTime: real)
    requires IsSqrt(sqrt) && FrictionDefined(sqrt, v, normalZ, deltaTime)
    ensures var speed := Length(sqrt, Xyz(v));
            Length(sqrt, Xyz(AfterFriction(sqrt, v, normalZ, deltaTime)))
              == Max(speed - FrictionAmount(speed, normalZ, deltaTime), 0.0)
  {
    var speed := Length(sqrt, Xyz(v));
    var friction := FrictionAmount(speed, normalZ, deltaTime);
    StepSpeed(sqrt, v, speed, friction);
  }

  /** Friction keeps the direction: the velocity (all four lanes) is scaled by
      the ratio of the new speed to the old one, and a standing velocity stays
      zero. */
  lemma FrictionDirection(sqrt: real -> real, v: Vec4, normalZ: real, deltaTime: real)
    requires IsSqrt(sqrt) && FrictionDefined(sqrt, v, normalZ, deltaTime)
    ensures var speed := Length(sqrt, Xyz(v));
            var newSpeed := Max(speed - FrictionAmount(speed, normalZ, deltaTime), 0.0);
            && (speed != 0.0 ==> AfterFriction(sqrt, v, normalZ, deltaTime) == Scale4(v, newSpeed / speed))
            && (speed == 0.0 ==> AfterFriction(sqrt, v, normalZ, deltaTime) == Zero4)
  {
    var speed := Length(sqrt, Xyz(v));
    var friction := FrictionAmount(speed, normalZ, deltaTime);
    LengthSquared(sqrt, Xyz(v));
    if friction >= speed {
      if speed != 0.0 {
        assert Max(speed - friction, 0.0) / speed == 0.0;
        assert Scale4(v, 0.0) == Zero4;
      }
    } else {
      ScaleFactorFacts(speed, friction);
    }
  }

  /** With the ground normal and the time step of the same sign friction never
      speeds the character up, and with both non-zero it slows a moving
      character down. */
  lemma FrictionNoGrowth(sqrt: real -> real, v: Vec4, normalZ: real, deltaTime: real)
    requires IsSqrt(sqrt) && !(Mul(normalZ, deltaTime) < 0.0)
    ensures FrictionDefined(sqrt, v, normalZ, deltaTime)
    ensures !(Length(sqrt, Xyz(v)) < Length(sqrt, Xyz(AfterFriction(sqrt, v, normalZ, deltaTime))))
    ensures 0.0 < Mul(normalZ, deltaTime) && Xyz(v) != Zero3 ==>
              Length(sqrt, Xyz(AfterFriction(sqrt, v, normalZ, deltaTime))) < Length(sqrt, Xyz(v))
  {
    FrictionDefinedWhenNonNegative(sqrt, v, normalZ, deltaTime);
    var speed := Length(sqrt, Xyz(v));
    FrictionSpeed(sqrt, v, normalZ, deltaTime);
    FrictionSign(speed, normalZ, deltaTime);
    if Xyz(v) != Zero3 {
      LengthPositive(sqrt, Xyz(v));
    } else {
      LengthOfZero(sqrt);
    }
  }

  // ------------------------------------------------------------ acceleration

  /** The speed the acceleration aims for along the move direction:
      `inAir ? moveLength * fAirSpeed : moveLength`. */
  function TargetSpeed(state: StateType, moveLength: real): real {
    if state == InAir then moveLength * AirSpeedFactor else moveLength
  }

  /** `accelMultiplier * moveLength * groundNormal.z * deltaTime`. */
  function AccelerationAmount(state: StateType, moveLength: real, normalZ: real, deltaTime: real): real {
    (if state == InAir then AirAccelerationFactor else AccelerationFactor) * moveLength * normalZ * deltaTime
  }

  /** The speed cap: a velocity longer than `speedCap` is scaled (all four lanes)
      down to that length. */
  function Capped(sqrt: real -> real, w: Vec4, speedCap: real): Vec4
    requires IsSqrt(sqrt) && !(speedCap < 0.0)
  {
    var newLength := Length(sqrt, Xyz(w));
    if newLength > speedCap then Scale4(w, speedCap / newLength) else w
  }

  /** The velocity after ApplyAcceleration. */
  function AfterAcceleration(sqrt: real -> real, v: Vec4, state: StateType, moveVector: Vec3,
                             moveLength: real, normalZ: real, deltaTime: real): Vec4
    requires IsSqrt(sqrt)
  {
    var speed := Dot(Xyz(v), moveVector);
    var maxSpeed := TargetSpeed(state, moveLength);
    var speedCap := Max(maxSpeed, Length(sqrt, Xyz(v)));
    if speed >= maxSpeed then v
    else
      LengthSquared(sqrt, Xyz(v));
      var accel := AccelerationAmount(state, moveLength, normalZ, deltaTime);
      Capped(sqrt, AccelerationStep(v, moveVector, Min(accel, maxSpeed - speed)), speedCap)
  }

  method ApplyAcceleration(sqrt: real -> real, move: MoveParams, velocity: AlignedVector4, state: StateType,
                           moveVector: Vec3, moveLength: real, deltaTime: real)
    requires IsSqrt(sqrt)
    modifies velocity
    ensures velocity.Value()
         == AfterAcceleration(sqrt, old(velocity.Value()), state, moveVector, moveLength, move.groundNormal.z, deltaTime)
  {
    ghost var v0 := velocity.Value();
    var inAir := state == InAir;
    var speed := Dot(Xyz(velocity.Value()), moveVector);
    var maxSpeed := if inAir then moveLength * AirSpeedFactor else moveLength;
    assert maxSpeed == TargetSpeed(state, moveLength);
    LengthSquared(sqrt, Xyz(velocity.Value()));
    var speedCap := Max(maxSpeed, Length(sqrt, Xyz(velocity.Value())));
    if speed >= maxSpeed {
      AccelerationAtTarget(sqrt, v0, state, moveVector, moveLength, move.groundNormal.z, deltaTime);
      return;
    }
    var accelMultiplier := if inAir then AirAccelerationFactor else AccelerationFactor;
    var accel := accelMultiplier * moveLength * move.groundNormal.z * deltaTime;
    assert accel == AccelerationAmount(state, moveLength, move.groundNormal.z, deltaTime);
    velocity.AddAssignXyz(Scale3(moveVector, Min(accel, maxSpeed - speed)));
    assert velocity.Value() == AccelerationStep(v0, moveVector, Min(accel, maxSpeed - speed));
    var newLength := Length(sqrt, Xyz(velocity.Value()));
    if newLength > speedCap {
      velocity.MulAssign(speedCap / newLength);
    }
    AccelerationBelowTarget(sqrt, v0, state, moveVector, moveLength, move.groundNormal.z, deltaTime);
  }

  /** Below the target speed along the move direction, acceleration takes a step
      toward it and then applies the speed cap. */
  lemma AccelerationBelowTarget(sqrt: real -> real, v: Vec4, state: StateType, moveVector: Vec3,
                                moveLength: real, normalZ: real, deltaTime: real)
    requires IsSqrt(sqrt) && Dot(Xyz(v), moveVector) < TargetSpeed(state, moveLength)
    ensures var maxSpeed := TargetSpeed(state, moveLength);
            var step := Min(AccelerationAmount(state, moveLength, normalZ, deltaTime), maxSpeed - Dot(Xyz(v), moveVector));
            && !(Max(maxSpeed, Length(sqrt, Xyz(v))) < 0.0)
            && AfterAcceleration(sqrt, v, state, moveVector, moveLength, normalZ, deltaTime)
               == Capped(sqrt, AccelerationStep(v, moveVector, step), Max(maxSpeed, Length(sqrt, Xyz(v))))
  {
    LengthSquared(sqrt, Xyz(v));
  }

  /** At or above the target speed along the move direction, acceleration leaves
      the velocity as it is. */
  lemma AccelerationAtTarget(sqrt: real -> real, v: Vec4, state: StateType, moveVector: Vec3,
                             moveLength: real, normalZ: real, deltaTime: real)
    requires IsSqrt(sqrt) && Dot(Xyz(v), moveVector) >= TargetSpeed(state, moveLength)
    ensures AfterAcceleration(sqrt, v, state, moveVector, moveLength, normalZ, deltaTime) == v
  {
  }

  lemma CapRatio(cap: real, newLength: real)
    requires !(cap < 0.0) && cap < newLength
    ensures !(cap / newLength < 0.0) && cap / newLength < 1.0
    ensures Mul(cap / newLength, newLength) == cap
  {
  }

  /** The cap leaves a velocity no longer than the cap alone and brings a longer
      one to exactly the cap's length. */
  lemma CappedLength(sqrt: real -> real, w: Vec4, speedCap: real)
    requires IsSqrt(sqrt) && !(speedCap < 0.0)
    ensures !(speedCap < Length(sqrt, Xyz(w))) ==> Capped(sqrt, w, speedCap) == w
    ensures Length(sqrt, Xyz(Capped(sqrt, w, speedCap))) == Min(Length(sqrt, Xyz(w)), speedCap)
  {
    var newLength := Length(sqrt, Xyz(w));
    if newLength > speedCap {
      CapRatio(speedCap, newLength);
      XyzScale4(w, speedCap / newLength);
      LengthScale(sqrt, Xyz(w), speedCap / newLength);
    }
  }

  /** Acceleration never takes the speed above the larger of the target speed and
      the speed before the step. */
  lemma AccelerationSpeedCap(sqrt: real -> real, v: Vec4, state: StateType, moveVector: Vec3,
                             moveLength: real, normalZ: real, deltaTime: real)
    requires IsSqrt(sqrt)
    ensures Length(sqrt, Xyz(AfterAcceleration(sqrt, v, state, moveVector, moveLength, normalZ, deltaTime)))
         <= Max(TargetSpeed(state, moveLength), Length(sqrt, Xyz(v)))
  {
    var speed := Dot(Xyz(v), moveVector);
    var maxSpeed := TargetSpeed(state, moveLength);
    var speedCap := Max(maxSpeed, Length(sqrt, Xyz(v)));
    LengthSquared(sqrt, Xyz(v));
    if speed < maxSpeed {
      var accel := AccelerationAmount(state, moveLength, normalZ, deltaTime);
      CappedLength(sqrt, AccelerationStep(v, moveVector, Min(accel, maxSpeed - speed)), speedCap);
    }
  }


  /** Scaling by a factor in [0, 1] never takes a component above the larger of
      itself and zero. */
  lemma ScaledComponent(k: real, d: real)
    requires !(k < 0.0) && !(1.0 < k)
    ensures !(Max(d, 0.0) < Mul(k, d))
  {
    if d < 0.0 {
      MulNonNegative(k, -d);
      assert Mul(k, -d) == -Mul(k, d);
    } else {
      MulAtMost(k, d);
    }
  }

  /** The cap never takes the speed along a direction above the larger of that
      speed and zero. */
  lemma CappedAlong(sqrt: real -> real, w: Vec4, speedCap: real, moveVector: Vec3)
    requires IsSqrt(sqrt) && !(speedCap < 0.0)
    ensures !(Max(Dot(Xyz(w), moveVector), 0.0) < Dot(Xyz(Capped(sqrt, w, speedCap)), moveVector))
  {
    var newLength := Length(sqrt, Xyz(w));
    if newLength > speedCap {
      var k := speedCap / newLength;
      CapRatio(speedCap, newLength);
      XyzScale4(w, k);
      DotScale(Xyz(w), k, moveVector);
      ScaledComponent(k, Dot(Xyz(w), moveVector));
    }
  }

  /** Along a unit move direction, acceleration never takes the speed above the
      larger of the target speed and the speed before the step. */
  lemma AccelerationAlongMove(sqrt: real -> real, v: Vec4, state: StateType, moveVector: Vec3,
                              moveLength: real, normalZ: real, deltaTime: real)
    requires IsSqrt(sqrt) && Dot(moveVector, moveVector) == 1.0 && !(moveLength < 0.0)
    ensures Dot(Xyz(AfterAcceleration(sqrt, v, state, moveVector, moveLength, normalZ, deltaTime)), moveVector)
         <= Max(TargetSpeed(state, moveLength), Dot(Xyz(v), moveVector))
  {
    var speed := Dot(Xyz(v), moveVector);
    var maxSpeed := TargetSpeed(state, moveLength);
    if speed < maxSpeed {
      var speedCap := Max(maxSpeed, Length(sqrt, Xyz(v)));
      LengthSquared(sqrt, Xyz(v));
      var accel := AccelerationAmount(state, moveLength, normalZ, deltaTime);
      var w := AccelerationStep(v, moveVector, Min(accel, maxSpeed - speed));
      StepAlongMove(v, moveVector, Min(accel, maxSpeed - speed));
      CappedAlong(sqrt, w, speedCap, moveVector);
    }
  }

  // ------------------------------------------------------------- move vector

  /** `forward * -input.x + right * input.y + up * input.z`, with
      `right = forward x up`, on the three lanes the caller reads. */
  function RawMoveVector(move: MoveParams): Vec3 {
    var forward := Xyz(move.forward);
    var up := Xyz(move.up);
    Combine(forward, Cross(forward, up), up, -move.input.x, move.input.y, move.input.z)
  }

  /** The slope correction: x and y are kept and z becomes
      `-Dot(moveVector, normal) / normal.z`, the dot product taken over all
      three lanes. */
  function SlopeProjection(moveVector: Vec3, normal: Vec3): Vec3
    requires normal.z != 0.0
  {
    Vec3(moveVector.x, moveVector.y, -Dot(moveVector, normal) / normal.z)
  }

  /** The ground is a slope when its normal's z is strictly between the two
      thresholds. */
  predicate OnSlope(normalZ: real) {
    !(normalZ <= SlopeEpsilon || normalZ >= 1.0 - SlopeEpsilon)
  }

  /** GetMoveVector: the normalized raw direction, projected onto the slope and
      normalized again when the ground is a slope. */
  function GetMoveVector(sqrt: real -> real, move: MoveParams): Vec3 {
    var moveVector := Normalize(sqrt, RawMoveVector(move));
    var normal := move.groundNormal;
    if normal.z <= SlopeEpsilon || normal.z >= 1.0 - SlopeEpsilon then moveVector
    else Normalize(sqrt, SlopeProjection(moveVector, Xyz(normal)))
  }

  lemma MulZero(a: real, b: real)
    requires 0.0 < b && Mul(a, b) == 0.0
    ensures a == 0.0
  {
    if a < 0.0 {
      MulPositive(-a, b);
    } else if 0.0 < a {
      MulPositive(a, b);
    }
  }

  /** The projection keeps x and y, and its dot product with the normal is
      -moveVector.z * normal.z: it lies in the slope's plane exactly when the
      direction it starts from is horizontal. */
  lemma SlopeProjectionPlane(moveVector: Vec3, normal: Vec3)
    requires 0.0 < normal.z
    ensures SlopeProjection(moveVector, normal).x == moveVector.x
    ensures SlopeProjection(moveVector, normal).y == moveVector.y
    ensures Dot(SlopeProjection(moveVector, normal), normal) == -Mul(moveVector.z, normal.z)
    ensures Dot(SlopeProjection(moveVector, normal), normal) == 0.0 <==> moveVector.z == 0.0
  {
    var d := Dot(moveVector, normal);
    assert Mul(-d / normal.z, normal.z) == -d;
    if Mul(moveVector.z, normal.z) == 0.0 {
      MulZero(moveVector.z, normal.z);
    }
  }

  /** The projection of a direction in the plane of the horizontal part of the
      normal, `-(x * normal.x + y * normal.y) / normal.z`: always perpendicular to
      the normal. */
  function PlaneProjection(moveVector: Vec3, normal: Vec3): Vec3
    requires normal.z != 0.0
  {
    Vec3(moveVector.x, moveVector.y, -(moveVector.x * normal.x + moveVector.y * normal.y) / normal.z)
  }

  /** The plane projection is perpendicular to the normal; the slope correction
      agrees with it exactly for horizontal directions. */
  lemma PlaneProjectionAgreement(moveVector: Vec3, normal: Vec3)
    requires 0.0 < normal.z
    ensures Dot(PlaneProjection(moveVector, normal), normal) == 0.0
    ensures SlopeProjection(moveVector, normal) == PlaneProjection(moveVector, normal) <==> moveVector.z == 0.0
  {
    var h := moveVector.x * normal.x + moveVector.y * normal.y;
    assert Mul(-h / normal.z, normal.z) == -h;
    var d := Dot(moveVector, normal);
    assert d == h + Mul(moveVector.z, normal.z);
    assert Mul(-d / normal.z, normal.z) == -d;
    if SlopeProjection(moveVector, normal) == PlaneProjection(moveVector, normal) {
      assert -d / normal.z == -h / normal.z;
      assert Mul(moveVector.z, normal.z) == 0.0;
      MulZero(moveVector.z, normal.z);
    }
  }

  /** The slope correction maps only the zero direction to zero. */
  lemma SlopeProjectionZero(moveVector: Vec3, normal: Vec3)
    requires 0.0 < normal.z
    ensures SlopeProjection(moveVector, normal) == Zero3 <==> moveVector == Zero3
  {
    SlopeProjectionPlane(moveVector, normal);
    if SlopeProjection(moveVector, normal) == Zero3 {
      assert Dot(Zero3, normal) == 0.0;
    }
    if moveVector == Zero3 {
      assert Dot(moveVector, normal) == 0.0;
    }
  }

  /** The move direction is a unit vector for every non-zero raw direction, and
      zero exactly when the raw direction is zero. */
  lemma MoveVectorUnit(sqrt: real -> real, move: MoveParams)
    requires IsSqrt(sqrt)
    ensures GetMoveVector(sqrt, move) == Zero3 <==> RawMoveVector(move) == Zero3
    ensures RawMoveVector(move) != Zero3 ==> Length(sqrt, GetMoveVector(sqrt, move)) == 1.0
  {
    var raw := RawMoveVector(move);
    var moveVector := Normalize(sqrt, raw);
    NormalizeZero(sqrt, raw);
    if raw != Zero3 {
      NormalizeUnit(sqrt, raw);
    }
    var normal := move.groundNormal;
    if !(normal.z <= SlopeEpsilon || normal.z >= 1.0 - SlopeEpsilon) {
      var p := SlopeProjection(moveVector, Xyz(normal));
      SlopeProjectionZero(moveVector, Xyz(normal));
      NormalizeZero(sqrt, p);
      if p != Zero3 {
        NormalizeUnit(sqrt, p);
      }
    }
  }

  /** Off slopes the move direction is the normalized raw direction; on a slope
      it is perpendicular to the ground normal exactly when the normalized raw
      direction is horizontal. */
  lemma MoveVectorOnSlope(sqrt: real -> real, move: MoveParams)
    requires IsSqrt(sqrt)
    ensures !OnSlope(move.groundNormal.z) ==> GetMoveVector(sqrt, move) == Normalize(sqrt, RawMoveVector(move))
    ensures OnSlope(move.groundNormal.z) ==>
              (Dot(GetMoveVector(sqrt, move), Xyz(move.groundNormal)) == 0.0
               <==> Normalize(sqrt, RawMoveVector(move)).z == 0.0)
  {
    var moveVector := Normalize(sqrt, RawMoveVector(move));
    var normal := Xyz(move.groundNormal);
    if OnSlope(move.groundNormal.z) {
      var p := SlopeProjection(moveVector, normal);
      SlopeProjectionPlane(moveVector, normal);
      if p != Zero3 {
        NormalizeUnit(sqrt, p);
        var k := 1.0 / Length(sqrt, p);
        DotScale(p, k, normal);
        DotSymmetric(Scale3(p, k), normal);
        if Dot(GetMoveVector(sqrt, move), normal) == 0.0 {
          MulZero(Dot(p, normal), k);
        }
      } else {
        assert Dot(Zero3, normal) == 0.0;
      }
    }
  }

  // ----------------------------------------------------------------- update

  /** The velocity after UpdateVelocity. */
  function AfterUpdate(sqrt: real -> real, move: MoveParams, v: Vec4, state: StateType, deltaTime: real): Vec4
    requires IsSqrt(sqrt)
    requires state != InAir ==> FrictionDefined(sqrt, v, move.groundNormal.z, deltaTime)
  {
    var afterFriction := if state != InAir then AfterFriction(sqrt, v, move.groundNormal.z, deltaTime) else v;
    var moveLength := Length(sqrt, Xyz(move.input));
    if moveLength >= MinMoveLength then
      AfterAcceleration(sqrt, afterFriction, state, GetMoveVector(sqrt, move), moveLength, move.groundNormal.z, deltaTime)
    else
      afterFriction
  }

  method UpdateVelocity(sqrt: real -> real, move: MoveParams, velocity: AlignedVector4, state: StateType, deltaTime: real)
    requires IsSqrt(sqrt)
    requires state != InAir ==> FrictionDefined(sqrt, velocity.Value(), move.groundNormal.z, deltaTime)
    modifies velocity
    ensures velocity.Value() == AfterUpdate(sqrt, move, old(velocity.Value()), state, deltaTime)
  {
    if state != InAir {
      ApplyFriction(sqrt, move, velocity, deltaTime);
    }
    var moveLength := Length(sqrt, Xyz(move.input));
    if moveLength >= MinMoveLength {
      var moveVector := GetMoveVector(sqrt, move);
      ApplyAcceleration(sqrt, move, velocity, state, moveVector, moveLength, deltaTime);
    }
  }

  /** Without input (length below 1e-4) the update is friction alone, and in
      the air not even that. */
  lemma UpdateWithoutInput(sqrt: real -> real, move: MoveParams, v: Vec4, state: StateType, deltaTime: real)
    requires IsSqrt(sqrt)
    requires state != InAir ==> FrictionDefined(sqrt, v, move.groundNormal.z, deltaTime)
    requires Length(sqrt, Xyz(move.input)) < MinMoveLength
    ensures state == InAir ==> AfterUpdate(sqrt, move, v, state, deltaTime) == v
    ensures state != InAir ==> AfterUpdate(sqrt, move, v, state, deltaTime) == AfterFriction(sqrt, v, move.groundNormal.z, deltaTime)
  {
  }

  /** In the air no friction applies: the update is acceleration alone. */
  lemma UpdateInAir(sqrt: real -> real, move: MoveParams, v: Vec4, deltaTime: real)
    requires IsSqrt(sqrt)
    requires Length(sqrt, Xyz(move.input)) >= MinMoveLength
    ensures AfterUpdate(sqrt, move, v, InAir, deltaTime)
         == AfterAcceleration(sqrt, v, InAir, GetMoveVector(sqrt, move), Length(sqrt, Xyz(move.input)),
                              move.groundNormal.z, deltaTime)
  {
  }

  /** When the ground normal and the time step do not have opposite signs, one
      update never takes the speed above the larger of the input's target speed
      and the speed before the update. */
  lemma UpdateSpeedBound(sqrt: real -> real, move: MoveParams, v: Vec4, state: StateType, deltaTime: real)
    requires IsSqrt(sqrt)
    requires state != InAir ==> !(Mul(move.groundNormal.z, deltaTime) < 0.0)
    ensures state != InAir ==> FrictionDefined(sqrt, v, move.groundNormal.z, deltaTime)
    ensures Length(sqrt, Xyz(AfterUpdate(sqrt, move, v, state, deltaTime)))
              <= Max(TargetSpeed(state, Length(sqrt, Xyz(move.input))), Length(sqrt, Xyz(v)))
  {
    var afterFriction := v;
    if state != InAir {
      FrictionNoGrowth(sqrt, v, move.groundNormal.z, deltaTime);
      afterFriction := AfterFriction(sqrt, v, move.groundNormal.z, deltaTime);
    }
    var moveLength := Length(sqrt, Xyz(move.input));
    LengthSquared(sqrt, Xyz(v));
    if moveLength >= MinMoveLength {
      AccelerationSpeedCap(sqrt, afterFriction, state, GetMoveVector(sqrt, move), moveLength,
                           move.groundNormal.z, deltaTime);
    }
  }

  // ------------------------------------------------------------------- hook

  /** The move parameters and velocity after hook_MoveCharacter. `usePhysics`
      is ShouldUsePhysics's answer and `original` the engine routine the hook
      replaces, which may write to both records. */
  function AfterMoveCharacter(sqrt: real -> real, usePhysics: bool, state: StateType, deltaTime: real,
                              move: MoveParams, v: Vec4,
                              original: (MoveParams, Vec4) -> (MoveParams, Vec4)): (MoveParams, Vec4)
    requires IsSqrt(sqrt)
    requires usePhysics && state != InAir ==>
               FrictionDefined(sqrt, Sub4(v, move.surfaceVelocity), move.groundNormal.z, deltaTime)
  {
    if !usePhysics then original(move, v)
    else
      var updated := Add4(AfterUpdate(sqrt, move, Sub4(v, move.surfaceVelocity), state, deltaTime),
                          move.surfaceVelocity);
      var newMove := if state == OnGround then move.(velocity := move.velocity.(z := updated.z)) else move;
      (newMove, updated)
  }

  method HookMoveCharacter(sqrt: real -> real, usePhysics: bool, state: StateType, deltaTime: real,
                           move: CharacterMoveParams, velocity: AlignedVector4,
                           original: (MoveParams, Vec4) -> (MoveParams, Vec4))
    requires IsSqrt(sqrt)
    requires usePhysics && state != InAir ==>
               FrictionDefined(sqrt, Sub4(velocity.Value(), move.surfaceVelocity), move.groundNormal.z, deltaTime)
    modifies move, velocity
    ensures (move.Value(), velocity.Value())
         == AfterMoveCharacter(sqrt, usePhysics, state, deltaTime, old(move.Value()), old(velocity.Value()), original)
  {
    if !usePhysics {
      var result := original(move.Value(), velocity.Value());
      move.Assign(result.0);
      velocity.Assign(result.1);
      return;
    }
    velocity.SubAssign(move.surfaceVelocity);
    UpdateVelocity(sqrt, move.Value(), velocity, state, deltaTime);
    velocity.AddAssign(move.surfaceVelocity);
    if state == OnGround {
      move.SetVelocityZ(velocity.z);
    }
  }

  /** With physics on, the hook changes no move parameter except
      `velocity.z`, which it sets to the new velocity's z on the ground and leaves
      alone in every other state. */
  lemma HookWritesOnlyVelocityZ(sqrt: real -> real, state: StateType, deltaTime: real, move: MoveParams, v: Vec4,
                                original: (MoveParams, Vec4) -> (MoveParams, Vec4))
    requires IsSqrt(sqrt)
    requires state != InAir ==> FrictionDefined(sqrt, Sub4(v, move.surfaceVelocity), move.groundNormal.z, deltaTime)
    ensures var (newMove, newVelocity) := AfterMoveCharacter(sqrt, true, state, deltaTime, move, v, original);
            && newMove.(velocity := newMove.velocity.(z := move.velocity.z)) == move
            && newMove.velocity.z == (if state == OnGround then newVelocity.z else move.velocity.z)
  {
  }

  /** With physics on, the velocity relative to the moving surface is what
      UpdateVelocity makes of the relative velocity before the hook. */
  lemma HookSurfaceRelative(sqrt: real -> real, state: StateType, deltaTime: real, move: MoveParams, v: Vec4,
                            original: (MoveParams, Vec4) -> (MoveParams, Vec4))
    requires IsSqrt(sqrt)
    requires state != InAir ==> FrictionDefined(sqrt, Sub4(v, move.surfaceVelocity), move.groundNormal.z, deltaTime)
    ensures Sub4(AfterMoveCharacter(sqrt, true, state, deltaTime, move, v, original).1, move.surfaceVelocity)
         == AfterUpdate(sqrt, move, Sub4(v, move.surfaceVelocity), state, deltaTime)
  {
  }

  /** With physics on, the speed relative to the surface never passes the larger
      of the input's target speed and the relative speed before the hook (for a
      ground normal and time step of the same sign). */
  lemma HookRelativeSpeedBound(sqrt: real -> real, state: StateType, deltaTime: real, move: MoveParams, v: Vec4,
                               original: (MoveParams, Vec4) -> (MoveParams, Vec4))
    requires IsSqrt(sqrt)
    requires state != InAir ==> !(Mul(move.groundNormal.z, deltaTime) < 0.0)
    ensures state != InAir ==> FrictionDefined(sqrt, Sub4(v, move.surfaceVelocity), move.groundNormal.z, deltaTime)
    ensures Length(sqrt, Xyz(Sub4(AfterMoveCharacter(sqrt, true, state, deltaTime, move, v, original).1,
                                  move.surfaceVelocity)))
         <= Max(TargetSpeed(state, Length(sqrt, Xyz(move.input))), Length(sqrt, Xyz(Sub4(v, move.surfaceVelocity))))
  {
    var relative := Sub4(v, move.surfaceVelocity);
    UpdateSpeedBound(sqrt, move, relative, state, deltaTime);
    HookSurfaceRelative(sqrt, state, deltaTime, move, v, original);
  }

  /** Friction leaves a velocity at rest at rest. */
  lemma FrictionAtRest(sqrt: real -> real, normalZ: real, deltaTime: real)
    requires IsSqrt(sqrt) && !(Mul(normalZ, deltaTime) < 0.0)
    ensures FrictionDefined(sqrt, Zero4, normalZ, deltaTime)
    ensures AfterFriction(sqrt, Zero4, normalZ, deltaTime) == Zero4
  {
    LengthOfZero(sqrt);
    FrictionDefinedWhenNonNegative(sqrt, Zero4, normalZ, deltaTime);
    FrictionSign(0.0, normalZ, deltaTime);
  }

  /** A full step from rest along a unit direction has the step's length. */
  lemma StepFromRest(sqrt: real -> real, moveVector: Vec3, step: real)
    requires IsSqrt(sqrt) && Length(sqrt, moveVector) == 1.0 && 0.0 < step
    ensures AccelerationStep(Zero4, moveVector, step) == Widen(Scale3(moveVector, step))
    ensures Length(sqrt, Xyz(AccelerationStep(Zero4, moveVector, step))) == step
  {
    assert Xyz(AccelerationStep(Zero4, moveVector, step)) == Scale3(moveVector, step);
    LengthScale(sqrt, moveVector, step);
  }

  /** From rest, an acceleration of at least the target speed makes the step
      the whole target speed. */
  lemma FullStepFromRest(v: Vec4, state: StateType, moveVector: Vec3, moveLength: real,
                         normalZ: real, deltaTime: real)
    requires Xyz(v) == Zero3 && state != InAir && 0.0 < moveLength
    requires moveLength <= AccelerationAmount(state, moveLength, normalZ, deltaTime)
    ensures Dot(Xyz(v), moveVector) < TargetSpeed(state, moveLength)
    ensures Min(AccelerationAmount(state, moveLength, normalZ, deltaTime),
                TargetSpeed(state, moveLength) - Dot(Xyz(v), moveVector)) == moveLength
  {
    assert Dot(Zero3, moveVector) == 0.0;
  }

  /** From rest, the speed cap is the target speed. */
  lemma CapFromRest(sqrt: real -> real, v: Vec4, state: StateType, moveLength: real)
    requires IsSqrt(sqrt) && Xyz(v) == Zero3 && state != InAir && 0.0 < moveLength
    ensures Max(TargetSpeed(state, moveLength), Length(sqrt, Xyz(v))) == moveLength
  {
    LengthOfZero(sqrt);
  }

  /** AccelerationBelowTarget with the step and the cap named. */
  lemma AccelerationTakesStep(sqrt: real -> real, v: Vec4, state: StateType, moveVector: Vec3,
                              moveLength: real, normalZ: real, deltaTime: real, step: real, speedCap: real)
    requires IsSqrt(sqrt) && Dot(Xyz(v), moveVector) < TargetSpeed(state, moveLength)
    requires Min(AccelerationAmount(state, moveLength, normalZ, deltaTime),
                 TargetSpeed(state, moveLength) - Dot(Xyz(v), moveVector)) == step
    requires Max(TargetSpeed(state, moveLength), Length(sqrt, Xyz(v))) == speedCap
    ensures AfterAcceleration(sqrt, v, state, moveVector, moveLength, normalZ, deltaTime)
         == Capped(sqrt, AccelerationStep(v, moveVector, step), speedCap)
  {
    AccelerationBelowTarget(sqrt, v, state, moveVector, moveLength, normalZ, deltaTime);
  }

  /** From rest below the target speed, the step is the whole target speed. */
  lemma AccelerationFromRestStep(sqrt: real -> real, state: StateType, moveVector: Vec3, moveLength: real,
                                 normalZ: real, deltaTime: real)
    requires IsSqrt(sqrt) && state != InAir && 0.0 < moveLength
    requires moveLength <= AccelerationAmount(state, moveLength, normalZ, deltaTime)
    ensures AfterAcceleration(sqrt, Zero4, state, moveVector, moveLength, normalZ, deltaTime)
         == Capped(sqrt, AccelerationStep(Zero4, moveVector, moveLength), moveLength)
  {
    var v := Zero4;
    FullStepFromRest(v, state, moveVector, moveLength, normalZ, deltaTime);
    CapFromRest(sqrt, v, state, moveLength);
    AccelerationTakesStep(sqrt, v, state, moveVector, moveLength, normalZ, deltaTime, moveLength, moveLength);
  }

  /** From rest, a unit move direction and an acceleration of at least the
      target speed give exactly the target speed along that direction. */
  lemma AccelerationFromRest(sqrt: real -> real, state: StateType, moveVector: Vec3, moveLength: real,
                             normalZ: real, deltaTime: real)
    requires IsSqrt(sqrt) && Length(sqrt, moveVector) == 1.0
    requires state != InAir && 0.0 < moveLength
    requires moveLength <= AccelerationAmount(state, moveLength, normalZ, deltaTime)
    ensures AfterAcceleration(sqrt, Zero4, state, moveVector, moveLength, normalZ, deltaTime)
         == Widen(Scale3(moveVector, moveLength))
  {
    AccelerationFromRestStep(sqrt, state, moveVector, moveLength, normalZ, deltaTime);
    StepFromRest(sqrt, moveVector, moveLength);
    CappedLength(sqrt, AccelerationStep(Zero4, moveVector, moveLength), moveLength);
  }

  /** From rest on the ground, an input whose acceleration for the tick is at
      least its own length reaches the target speed in one tick: the velocity
      becomes the input length times the unit move direction. */
  lemma StandingStart(sqrt: real -> real, move: MoveParams, state: StateType, deltaTime: real)
    requires IsSqrt(sqrt)
    requires state != InAir && !(Mul(move.groundNormal.z, deltaTime) < 0.0)
    requires RawMoveVector(move) != Zero3
    requires MinMoveLength <= Length(sqrt, Xyz(move.input))
    requires Length(sqrt, Xyz(move.input))
          <= AccelerationAmount(state, Length(sqrt, Xyz(move.input)), move.groundNormal.z, deltaTime)
    ensures FrictionDefined(sqrt, Zero4, move.groundNormal.z, deltaTime)
    ensures AfterUpdate(sqrt, move, Zero4, state, deltaTime)
         == Widen(Scale3(GetMoveVector(sqrt, move), Length(sqrt, Xyz(move.input))))
  {
    FrictionAtRest(sqrt, move.groundNormal.z, deltaTime);
    MoveVectorUnit(sqrt, move);
    AccelerationFromRest(sqrt, state, GetMoveVector(sqrt, move), Length(sqrt, Xyz(move.input)),
                         move.groundNormal.z, deltaTime);
  }

  /** Through the hook: a player moving with the surface under them ends the
      tick at the surface velocity plus the input length times the unit move
      direction. */
  lemma HookStandingStart(sqrt: real -> real, state: StateType, deltaTime: real, move: MoveParams,
                          original: (MoveParams, Vec4) -> (MoveParams, Vec4))
    requires IsSqrt(sqrt)
    requires state != InAir && !(Mul(move.groundNormal.z, deltaTime) < 0.0)
    requires RawMoveVector(move) != Zero3
    requires MinMoveLength <= Length(sqrt, Xyz(move.input))
    requires Length(sqrt, Xyz(move.input))
          <= AccelerationAmount(state, Length(sqrt, Xyz(move.input)), move.groundNormal.z, deltaTime)
    ensures FrictionDefined(sqrt, Sub4(move.surfaceVelocity, move.surfaceVelocity), move.groundNormal.z, deltaTime)
    ensures AfterMoveCharacter(sqrt, true, state, deltaTime, move, move.surfaceVelocity, original).1
         == Add4(Widen(Scale3(GetMoveVector(sqrt, move), Length(sqrt, Xyz(move.input)))), move.surfaceVelocity)
  {
    var rel := Sub4(move.surfaceVelocity, move.surfaceVelocity);
    var w := Widen(Scale3(GetMoveVector(sqrt, move), Length(sqrt, Xyz(move.input))));
    assert FrictionDefined(sqrt, rel, move.groundNormal.z, deltaTime)
        && AfterUpdate(sqrt, move, rel, state, deltaTime) == w by {
      assert rel == Zero4;
      StandingStart(sqrt, move, state, deltaTime);
    }
  }
}
