# Player physics: velocity update and jump-input gate

A Dafny model of the movement core of the fo3-player-physics plugin, which
replaces the engine's character-move routine for the player with a
friction-and-acceleration velocity update, and which keeps a held jump button
from triggering a second jump.

Two versions of the update are modelled side by side:

- `PlayerPhysics` (`src/main.cpp`): friction scaled by the ground normal's z,
  acceleration toward a target speed followed by a speed cap, a move direction
  projected onto slopes, and a move hook that writes `move.velocity.z` back on
  the ground.
- `LegacyPhysics` (`main.cpp`): the older update, without the slope factor,
  the cap or the projection, with air acceleration 10 and air speed 0.1, and a
  hook that never writes to the move parameters.

`VelocityStep` holds the friction step and the acceleration step that both
versions share.

`JumpInput` models the newer plugin's one-flag gate `g_player.usedJumpInput`
as a class whose two methods are the button-check hook and the jumping-state
hook, with a pure run over a sequence of hook calls to state what the gate does
over time.

`VectorMath` holds the vectors (`Vec3` for NiVector3, `Vec4` for
AlignedVector4 with its padding lane), exact dot and cross products, and length
and normalization built on a square root passed in as a parameter `sqrt` with
`IsSqrt(sqrt)`: non-negative, and squaring back to its argument on the
non-negative reals. `Engine` holds the controller states, the move-parameters
record, and the caller-owned `AlignedVector4` and `CharacterMoveParams` as
classes whose operator methods (`*=`, `+=`, `-=`, `=`) update them in place.

Every in-place operation is a method whose `ensures` equates the new value with
a function of the old one (`AfterFriction`, `AfterAcceleration`, `AfterUpdate`,
`AfterMoveCharacter`); the properties of the update are lemmas about those
functions.

Three details of the code shape the model:

- The slope correction (`src/main.cpp:88-89`) takes the dot product of the
  move direction with the whole ground normal. The corrected vector lies in the
  slope's plane only when the normalized direction is horizontal
  (`PlayerPhysics.PlaneProjectionAgreement`).
- The jump flag `usedJumpInput` starts out set (`src/main.cpp:33`), so held
  input is ignored until the first fresh press.
- Friction has no separate zero-speed branch (`src/main.cpp:41-48`). At speed
  zero the friction is `5 * 8 * normal.z * dt`. When `normal.z * dt` is not
  negative this reaches the speed, so the zeroing branch is taken and nothing
  is divided.

## Model

| member | source | states |
|---|---|---|
| `PlayerPhysics.ApplyFriction` | src/main.cpp:36-49 | The velocity becomes the zero vector when `5 * max(speed, 8) * normal.z * dt` reaches the speed, else it is scaled by `1 - friction/speed`. |
| `PlayerPhysics.FrictionDefinedWhenNonNegative` | src/main.cpp:41-48 | When `normal.z * dt` is not negative, the scaling branch is never reached at speed zero, so the division is safe. |
| `PlayerPhysics.FrictionSpeed` | src/main.cpp:41-48 | After friction the speed is `max(speed - friction, 0)`. |
| `PlayerPhysics.FrictionDirection` | src/main.cpp:45-48 | Friction never turns the velocity: a moving velocity is scaled by the non-negative factor `newSpeed/speed`, and a standing velocity ends at zero. |
| `PlayerPhysics.FrictionNoGrowth` | src/main.cpp:41-48 | With `normal.z * dt >= 0` friction never raises the speed; with both factors non-zero it strictly lowers the speed of a moving character. |
| `PlayerPhysics.FrictionAtRest` | src/main.cpp:41-46 | When `normal.z * dt >= 0`, a velocity at rest stays exactly at rest. Below that, the code divides zero by zero at src/main.cpp:48. |
| `PlayerPhysics.ApplyAcceleration` | src/main.cpp:51-73 | The method updates the velocity in place to `AfterAcceleration` of the old velocity: a no-op at or above the target speed, else one step followed by the speed cap. |
| `PlayerPhysics.AccelerationAtTarget` | src/main.cpp:59-65 | When the speed along the move vector is already at least `maxSpeed`, the velocity is unchanged. |
| `PlayerPhysics.AccelerationBelowTarget` | src/main.cpp:62-72 | Below target the result is the step `min(accel, maxSpeed - speed)` along the move vector, capped at `max(maxSpeed, old length)`, which is recorded before the step. |
| `PlayerPhysics.CappedLength` | src/main.cpp:71-72 | The cap leaves a velocity no longer than the cap unchanged. In every case the length after the cap is `min(length, cap)`. |
| `PlayerPhysics.AccelerationSpeedCap` | src/main.cpp:62-72 | After acceleration the length is at most `max(maxSpeed, length before)`, for every state, input length and time step. |
| `VelocityStep.StepAlongMove` | src/main.cpp:69 | Along a unit move vector, the step adds exactly its size to the speed along it. |
| `PlayerPhysics.AccelerationAlongMove` | src/main.cpp:59-72 | Along a unit move vector, the speed after acceleration is at most `max(maxSpeed, speed before)`, the speed cap included. |
| `PlayerPhysics.AccelerationFromRest` | src/main.cpp:59-72 | From rest in any state but the air, with a positive input length, a unit move vector and an acceleration of at least the target speed, the velocity becomes exactly the target speed times the move vector. |
| `PlayerPhysics.GetMoveVector` | src/main.cpp:75-90 | The definition of the move vector: the normalized raw direction, corrected onto the slope and normalized again on a slope. Its properties are stated by `MoveVectorUnit` and `MoveVectorOnSlope`. |
| `PlayerPhysics.MoveVectorUnit` | src/main.cpp:75-90 | The move vector is zero exactly when the raw direction `forward*(-x) + (forward x up)*y + up*z` is zero; otherwise it has length 1, on slopes and off them. |
| `PlayerPhysics.MoveVectorOnSlope` | src/main.cpp:83-89 | With `normal.z <= 1e-4` or `normal.z >= 1 - 1e-4`, the result is the normalized raw direction. On a slope, the result is perpendicular to the normal exactly when that direction is horizontal. |
| `PlayerPhysics.SlopeProjectionPlane` | src/main.cpp:88-89 | The slope correction keeps x and y. Its dot product with the normal is `-z * normal.z`. |
| `PlayerPhysics.SlopeProjectionZero` | src/main.cpp:88-89 | The slope correction maps only the zero direction to zero, so the second normalization yields a unit vector. |
| `PlayerPhysics.PlaneProjectionAgreement` | src/main.cpp:88-89 | The in-plane projection built from the horizontal part of the normal is perpendicular to the normal. The code's correction equals it exactly for horizontal directions. |
| `PlayerPhysics.UpdateVelocity` | src/main.cpp:92-105 | The method updates the velocity in place to `AfterUpdate`: friction unless in the air, then acceleration along `GetMoveVector` only when the input length is at least 1e-4. |
| `PlayerPhysics.UpdateWithoutInput` | src/main.cpp:98-104 | When the input length is below 1e-4, the update is friction alone, and in the air it is the identity. |
| `PlayerPhysics.UpdateInAir` | src/main.cpp:98-104 | In the air no friction applies, and the update is acceleration alone. |
| `PlayerPhysics.UpdateSpeedBound` | src/main.cpp:92-105 | One update never takes the speed above `max(target speed, speed before)` when `normal.z * dt >= 0` off the air. |
| `PlayerPhysics.StandingStart` | src/main.cpp:92-105 | Take a velocity at rest, a state other than in the air, `normal.z * dt >= 0`, a non-zero raw direction, an input length of at least 1e-4, and an acceleration for the tick of at least that length. One update gives exactly the input length times the unit move vector. |
| `PlayerPhysics.HookMoveCharacter` | src/main.cpp:113-134 | Without physics, both records are what the original routine makes of them. Otherwise the surface velocity is subtracted, the update runs, the surface velocity is added back, and `move.velocity.z` is written on the ground only. |
| `PlayerPhysics.HookWritesOnlyVelocityZ` | src/main.cpp:127-133 | With physics, no move parameter changes except `velocity.z`, which takes the new velocity's z in `OnGround` and stays the same in every other state. |
| `PlayerPhysics.HookSurfaceRelative` | src/main.cpp:127-129 | With physics, the new velocity minus the surface velocity is the update of the old velocity minus the surface velocity (over the reals). |
| `PlayerPhysics.HookRelativeSpeedBound` | src/main.cpp:113-134 | With physics, the speed relative to the surface never passes `max(target speed, relative speed before)`. |
| `PlayerPhysics.HookStandingStart` | src/main.cpp:113-134 | Take a player moving with the surface, not in the air, with `normal.z * dt >= 0`, a non-zero raw direction, an input length of at least 1e-4, and an acceleration for the tick of at least that length. The hook ends the tick at the surface velocity plus the input length times the unit move vector. |
| `JumpInput.WillJump` | src/main.cpp:162-172 | The result is true exactly when the wanted state is neither `OnGround` nor `Climbing`. |
| `JumpInput.PlayerJumpState.constructor` | src/main.cpp:32-34 | The flag starts out set. |
| `JumpInput.PlayerJumpState.CheckJumpButton` | src/main.cpp:148-160 | A fresh press clears the flag and returns true. Otherwise a set flag returns false without asking about held input, and a clear flag returns the held check's answer. |
| `JumpInput.PlayerJumpState.JumpingUpdateVelocity` | src/main.cpp:174-182 | The flag is set when physics applies and the jump will take effect, and is unchanged otherwise. |
| `JumpInput.RunConcat` | src/main.cpp:148-182 | Running two sequences of hook calls in a row equals running them one after the other, for both the flag and the answers. |
| `JumpInput.AnswersLength` | src/main.cpp:148-160 | The button hook gives exactly one answer per button check. |
| `JumpInput.HeldIgnoredWhileUsed` | src/main.cpp:151-179 | Once the flag is set, it stays set until the next fresh press, whatever jumping-state calls come in between, and every button check answers false, whatever the held check says. |
| `JumpInput.HeldPassesWhileFresh` | src/main.cpp:151-159 | Once the flag is clear, until a press or a handled jump, the flag stays clear and the answers are the held check's answers. |
| `JumpInput.RunCharacterization` | src/main.cpp:151-179 | The flag is clear exactly when some fresh press has not been followed by a handled jump, or when it started clear and no handled jump came. |
| `JumpInput.JumpCycle` | src/main.cpp:148-182 | Take the sequence press, handled jump, held check: it answers true then false. When the jump is not handled by the plugin, the held check's answer passes through. |
| `LegacyPhysics.ApplyFriction` | main.cpp:40-52 | The velocity becomes zero when `5 * max(speed, 8) * dt` reaches the speed, else it is scaled by `1 - friction/speed`. There is no slope factor. |
| `LegacyPhysics.FrictionDefinedWhenNonNegative` | main.cpp:45-51 | With `dt >= 0` the friction is not negative, and the division is never reached at speed zero. |
| `LegacyPhysics.FrictionSpeed` | main.cpp:45-51 | After friction the speed is `max(speed - friction, 0)`. |
| `LegacyPhysics.FrictionStopsExample` | main.cpp:45-51 | At speed 10, dt 1 gives friction 50, and the velocity becomes exactly zero. |
| `LegacyPhysics.ApplyAcceleration` | main.cpp:54-71 | Only below `maxSpeed` (a tenth of the input length in the air), one step of `min(accel, maxSpeed - speed)` is added along the move vector. There is no cap. |
| `LegacyPhysics.AccelerationAtTarget` | main.cpp:62-70 | At or above the target speed along the move vector, the velocity is unchanged. |
| `LegacyPhysics.AccelerationAlongMove` | main.cpp:62-70 | Along a unit move vector below target, the speed grows by exactly the step. In every case it ends at most `max(maxSpeed, speed before)`. |
| `LegacyPhysics.MoveVector` | main.cpp:87-91 | The definition of the inline move vector: the input divided by its length, combined with forward, `forward x up` and up, with no renormalization. Its property is stated by `MoveVectorUnit`. |
| `LegacyPhysics.MoveVectorUnit` | main.cpp:87-91 | Suppose forward and up are orthonormal. Then the move vector built from the input divided by its length is a unit vector, with no renormalization. |
| `LegacyPhysics.UpdateVelocity` | main.cpp:73-93 | The method updates the velocity in place to `AfterUpdate`: friction unless in the air, a return when the input length is below 1e-4, and otherwise acceleration along the inline move vector. |
| `LegacyPhysics.UpdateWithoutInput` | main.cpp:79-85 | When the input length is below 1e-4, the update is friction alone, and in the air it is the identity. |
| `LegacyPhysics.UpdateAlongMove` | main.cpp:73-93 | For an orthonormal forward and up, the speed along the move vector after the update is at most `max(target speed, that speed after friction)`. |
| `LegacyPhysics.HookMoveCharacter` | main.cpp:95-111 | Other controllers get the original routine's result. The player's velocity is updated relative to the surface velocity. `move` is never written. |
| `LegacyPhysics.HookSurfaceRelative` | main.cpp:106-110 | For the player, the new velocity minus the surface velocity is the update of the old relative velocity (over the reals). |
| `LegacyPhysics.HookRelativeAlongMove` | main.cpp:95-111 | For the player, with an orthonormal forward and up and an input length of at least 1e-4, the speed along the move vector relative to the surface ends at most `max(target speed, that relative speed after friction)`. |
| `Engine.AlignedVector4.Assign` | src/main.cpp:46 | `*velocity = v` sets all four lanes to `v`. |
| `Engine.AlignedVector4.SubAssign` | src/main.cpp:127 | `*velocity -= surfaceVelocity.PS()` subtracts the packed operand from all four lanes. |
| `Engine.AlignedVector4.AddAssign` | src/main.cpp:129 | `*velocity += surfaceVelocity.PS()` adds the packed operand to all four lanes. |
| `Engine.AlignedVector4.MulAssign` | src/main.cpp:48 | `*velocity *= k` scales all four lanes, including the padding lane. |
| `Engine.AlignedVector4.AddAssignXyz` | src/main.cpp:69 | Adding a three-lane vector changes x, y and z and leaves the padding lane alone. |
| `Engine.CharacterMoveParams.Assign` | src/main.cpp:121 | The original routine may overwrite every field of the move record. |
| `Engine.CharacterMoveParams.SetVelocityZ` | src/main.cpp:133 | Only `move.velocity.z` changes. |
| `VectorMath.NormalizeUnit` | src/main.cpp:82 | A non-zero vector normalizes to a positive multiple of itself of length 1. |
| `VectorMath.LengthSquared` | src/main.cpp:41 | The length is not negative and squares to the vector's dot product with itself. |
| `VectorMath.CrossOfOrthonormal` | src/main.cpp:80 | For orthonormal forward and up, `right = forward x up` is a unit vector perpendicular to both. |

## Left out

- Plugin loading and patching (`NVSEPlugin_Query`, `NVSEPlugin_Load`, `patch_call_rel32`, `patch_vtable`, the naked-assembly `hook_MoveCharacter_wrapper`): binary patching and operating-system calls.
- The engine routines the hooks replace (`HookGetOriginal`, `CdeclCall`, `ThisCall` at fixed addresses) are parameters. The move routine is a function of the records. The button check is a function from the control state to its integer answer. The original jumping-state update, called after the flag write, is outside the model.
- `ShouldUsePhysics` and the player test of the older hook read engine globals (`PlayerCharacter::GetSingleton`, the VATS camera mode), so their answers are boolean parameters. The controller's state, time step and wanted state are parameters too.
- `IniPrefSetting` (main.cpp:6-15): a foreign constructor call, used only by commented-out settings.
- Floating point: scalars are reals, so `1e-4f` and `.1f` are read as the exact reals 0.0001 and 0.1. Rounding, NaN and infinities are not modelled. The square root is abstract. Equalities such as the surface velocity subtracted and added back hold over the reals only.
- The engine's vector types (`NiVector3`, `AlignedVector4`) are defined outside the files modelled. `Normalize` of a zero vector is assumed to return it unchanged.
- `AlignedVector4` layout and alignment, and the `.PS()` SIMD conversion: lane-wise arithmetic on four reals stands for them.
- PlayerPhysics.ApplyFriction: requires that the scaling branch is not reached at speed zero (`FrictionDefined`), because the source divides by zero there when `normal.z * dt < 0`, producing NaN lanes that reals cannot represent. `FrictionDefinedWhenNonNegative` shows that this holds whenever `normal.z * dt >= 0`.
- PlayerPhysics.UpdateVelocity: carries the same requirement as `ApplyFriction` off the air.
- PlayerPhysics.HookMoveCharacter: carries the same requirement for the surface-relative velocity when physics applies.
- LegacyPhysics.ApplyFriction: requires that the scaling branch is not reached at speed zero (`FrictionDefined`), for the same reason. It holds whenever `dt >= 0`.
- LegacyPhysics.UpdateVelocity: carries the same requirement as `ApplyFriction` off the air.
- LegacyPhysics.HookMoveCharacter: carries the same requirement for the player's surface-relative velocity.
- LegacyPhysics.MoveVectorUnit: requires orthonormal forward and up vectors. The code does not renormalize, so the move vector is unit only for such inputs.
- PlayerPhysics.UpdateSpeedBound: requires `normal.z * dt >= 0` off the air. With opposite signs, friction can speed the character up.
