/** The engine records the velocity update works on: the character-controller
    state, the movement parameters the engine passes to its move routine, and the
    caller-owned vectors that routine updates in place. */
module Engine {
  import opened VectorMath

  /** hkpCharacterState::StateType, the controller states the update tells apart;
      any further engine state is `OtherState`. */
  datatype StateType = OnGround | Jumping | InAir | Climbing | Flying | OtherState

  /** CharacterMoveParams as a value. */
  datatype MoveParams = MoveParams(
    multiplier: real,
    forward: Vec4,
    up: Vec4,
    groundNormal: Vec4,
    velocity: Vec4,
    input: Vec4,
    maxSpeed: real,
    surfaceVelocity: Vec4)

  /** A caller-owned AlignedVector4, updated in place through its operators. */
  class AlignedVector4 {
    var x: real
    var y: real
    var z: real
    var w: real

    function Value(): Vec4
      reads this
    {
      Vec4(x, y, z, w)
    }

    constructor (v: Vec4)
      ensures Value() == v
    {
      x, y, z, w := v.x, v.y, v.z, v.w;
    }

    /** `*this = v`. */
    method Assign(v: Vec4)
      modifies this
      ensures Value() == v
    {
      x, y, z, w := v.x, v.y, v.z, v.w;
    }

    /** `*this *= k`, all four lanes. */
    method MulAssign(k: real)
      modifies this
      ensures Value() == Scale4(old(Value()), k)
    {
      x, y, z, w := x * k, y * k, z * k, w * k;
    }

    /** `*this += v`, all four lanes (a packed operand). */
    method AddAssign(v: Vec4)
      modifies this
      ensures Value() == Add4(old(Value()), v)
    {
      x, y, z, w := x + v.x, y + v.y, z + v.z, w + v.w;
    }

    /** `*this -= v`, all four lanes (a packed operand). */
    method SubAssign(v: Vec4)
      modifies this
      ensures Value() == Sub4(old(Value()), v)
    {
      x, y, z, w := x - v.x, y - v.y, z - v.z, w - v.w;
    }

    /** `*this += d` for a three-lane operand: the padding lane is left alone. */
    method AddAssignXyz(d: Vec3)
      modifies this
      ensures Value() == AddXyz(old(Value()), d)
    {
      x, y, z := x + d.x, y + d.y, z + d.z;
    }
  }

  /** A CharacterMoveParams record the move routine may write to. */
  class CharacterMoveParams {
    var multiplier: real
    var forward: Vec4
    var up: Vec4
    var groundNormal: Vec4
    var velocity: Vec4
    var input: Vec4
    var maxSpeed: real
    var surfaceVelocity: Vec4

    function Value(): MoveParams
      reads this
    {
      MoveParams(multiplier, forward, up, groundNormal, velocity, input, maxSpeed, surfaceVelocity)
    }

    constructor (p: MoveParams)
      ensures Value() == p
    {
      multiplier, forward, up, groundNormal := p.multiplier, p.forward, p.up, p.groundNormal;
      velocity, input, maxSpeed, surfaceVelocity := p.velocity, p.input, p.maxSpeed, p.surfaceVelocity;
    }

    /** Overwrite every field with `p` (what an opaque engine routine may do). */
    method Assign(p: MoveParams)
      modifies this
      ensures Value() == p
    {
      multiplier, forward, up, groundNormal := p.multiplier, p.forward, p.up, p.groundNormal;
      velocity, input, maxSpeed, surfaceVelocity := p.velocity, p.input, p.maxSpeed, p.surfaceVelocity;
    }

    /** `velocity.z = z`. */
    method SetVelocityZ(z: real)
      modifies this
      ensures Value() == old(Value()).(velocity := old(Value()).velocity.(z := z))
    {
      velocity := velocity.(z := z);
    }
  }
}
