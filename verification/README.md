# Player controller: throw, charge, cooldown and look clamping

This project models the core of the first-person `PlayerController` of the
Knockdown ball-throwing game (`Assets/Scripts/PlayerController.cs`). It covers
the per-frame state machine that holds a ball, charges a throw while the left
mouse button is held, throws on release, waits out a cooldown and spawns the
next ball. It also covers the mouse-look angles, which accumulate the scaled
mouse deltas and are clamped to their limits.

The engine is replaced by inputs:

- each frame is one `Input`: `Time.deltaTime`, the button's Down / Held / Up
  flags and the raw "Mouse X" / "Mouse Y" axes;
- the held `GameObject` is an optional ball number;
- `Instantiate` becomes the `spawned` counter, which numbers the balls;
- the impulse of a throw is returned from `Update` as `Launch(ball, force)`.

Timers and angles are `real`.

Layout:

- `real_arith.dfy` (module `RealArith`): `Scale` (a product) and `Fraction`
  (a quotient by a positive number), each with one small lemma per bound.
  `Lerp`, `ChargedForce` and `HandTarget` write their products and quotients
  through these names. The class's `Release` divides inline, as the source
  does; its result is the same by definition.
- `mathf.dfy` (module `Mathf`): the Unity `Mathf.Min`, `Clamp`, `Clamp01` and
  `Lerp` the controller calls.
- `player_frame.dfy` (module `PlayerFrame`): the settings (`Config`, with the
  source's default values), a snapshot of the fields (`State`), and the
  invariant `Inv`. `Step` is one frame as a pure transition. It is built from
  one function per block of `Update`: cooldown, press, hold, release and look.
- `player_controller.dfy` (module `Player`): the class `PlayerController`. Its
  fields are the source's state fields. `Valid()` is `Inv` on its snapshot.
  The constructor is `Start`. `Update` changes the fields in place, one
  method per block of the source's `Update`. It is proved to perform exactly
  `Step`. `ShootBall` and `SpawnHeldBall` carry the source's state effects.
- `frame_properties.dfy` (module `FrameProperties`): what one frame
  guarantees.
- `run_properties.dfy` (module `RunProperties`): what any sequence of frames
  guarantees. `Run` calls `Step` once per frame.

The invariant `Inv` states these facts:

- a ball is held exactly when `canThrow` is true;
- charging implies a ball is held;
- the held ball is the last one spawned;
- `chargeTimer` lies in `[0, maxChargeTime]`;
- both look angles lie within their limits.

`Start` establishes it and every frame with a non-negative `dt` keeps it.

Three behaviours of the code are worth stating, and the model follows them:

- A release below `minChargeTime` ends the charge. The same ball stays held
  and no cooldown starts.
- A second press during a charge restarts it from zero.
- A press, hold and release can all happen within one frame.

## Model

| member | source | states |
|---|---|---|
| Mathf.Min | Assets/Scripts/PlayerController.cs:83 | The result is no larger than either argument and is one of them. |
| Mathf.Clamp | Assets/Scripts/PlayerController.cs:104-105 | With lo <= hi the result lies in [lo, hi]. A value already in range is returned unchanged, a value below lo gives lo and a value above hi gives hi. The result is always the value or one of the bounds. |
| Mathf.Clamp01 | Assets/Scripts/PlayerController.cs:90 | The fraction lies in [0, 1], is unchanged inside it, and saturates at 0 and 1. |
| Mathf.Lerp | Assets/Scripts/PlayerController.cs:90 | The interpolated value never leaves the segment between a and b, in either order; t <= 0 gives a and t >= 1 gives b. |
| Mathf.LerpMonotone | Assets/Scripts/PlayerController.cs:90 | With a <= b, a larger fraction never gives a smaller value. |
| PlayerFrame.Defaults | Assets/Scripts/PlayerController.cs:11-29 | The default settings are well formed: min force <= max force, and 0 <= min charge time <= max charge time. |
| PlayerFrame.Initial | Assets/Scripts/PlayerController.cs:32-46 | After Start, ball 0 is held, one ball has been spawned, throwing is allowed, no charge is in progress, and the invariant holds. |
| PlayerFrame.Spawn | Assets/Scripts/PlayerController.cs:147-149 | The new ball is numbered by the spawn counter and held; the counter grows by one, so the held ball is the last spawned. Nothing else changes. Player.PlayerController.SpawnHeldBall is proved equal to it. |
| PlayerFrame.CooldownPhase | Assets/Scripts/PlayerController.cs:64-72 | Keeps Inv. With throwing allowed nothing changes. Otherwise the timer drops by dt, and a ball is spawned exactly when it reaches zero or below; that ball is then held and throwing is allowed again. Charge and angles are untouched. Player.PlayerController.TickCooldown is proved equal to it; FrameProperties.CooldownTick states its effect on a whole frame. |
| PlayerFrame.PressPhase | Assets/Scripts/PlayerController.cs:75-79 | Keeps Inv. Charging afterwards holds exactly when it already did or the button was pressed with a ball held and throwing allowed; such a press sets the charge to 0. Nothing else changes. Player.PlayerController.StartCharge is proved equal to it; FrameProperties.ChargeStart states its effect on a whole frame. |
| PlayerFrame.HoldPhase | Assets/Scripts/PlayerController.cs:80-84 | Keeps Inv for dt >= 0. The charge never shrinks and never passes maxChargeTime. Without charging and holding nothing changes; only the charge ever changes. Player.PlayerController.AccumulateCharge is proved equal to it; FrameProperties.ChargeAccumulates states its effect on a whole frame. |
| PlayerFrame.Shoot | Assets/Scripts/PlayerController.cs:140-143 | The held ball is launched with the given force; the hand is then empty, throwing is disabled and the cooldown is set to throwCooldown. Nothing else changes. Player.PlayerController.ShootBall is proved equal to it. |
| PlayerFrame.ReleasePhase | Assets/Scripts/PlayerController.cs:85-95 | Keeps Inv. A launch happens if and only if the button is released during a charge of at least minChargeTime with a ball held and throwing allowed. It carries the held ball and ChargedForce of the charge, and leaves the hand empty with the cooldown started. Without a launch the ball, canThrow and the cooldown are kept. A release always stops the charge, and without a release nothing changes. Player.PlayerController.Release is proved equal to it; FrameProperties.ThrowOnlyAfterLongCharge states its effect on a whole frame. |
| PlayerFrame.LookPhase | Assets/Scripts/PlayerController.cs:97-105 | With non-negative limits both angles end within them, Inv is kept, and only the two angles change. Player.PlayerController.Look is proved equal to it; FrameProperties.RotationClamped states its effect on a whole frame. |
| PlayerFrame.ChargedForce | Assets/Scripts/PlayerController.cs:89-90 | The launch force lies in [minLaunchForce, maxLaunchForce] when min <= max. No charge gives the minimum force and a full charge the maximum. |
| PlayerFrame.Step | Assets/Scripts/PlayerController.cs:63-105 | Every frame with dt >= 0 keeps the controller invariant. |
| PlayerFrame.HandTarget | Assets/Scripts/PlayerController.cs:51-55 | The hand target keeps the rest x and y. It is the rest position when not charging and when charging with zero charge. Within the charge range it lies between rest z - maxHandDrawback and rest z, and a full charge reaches rest z - maxHandDrawback. |
| Player.PlayerController.constructor | Assets/Scripts/PlayerController.cs:38-46 | Start leaves the fields in the initial state, holding one spawned ball, with the invariant established. |
| Player.PlayerController.HandTargetNow | Assets/Scripts/PlayerController.cs:51-55 | For a valid controller, the hand target keeps the rest x and y and is the rest position when not charging or at zero charge. Its z never leaves [rest z - maxHandDrawback, rest z], and a full charge reaches rest z - maxHandDrawback. |
| Player.PlayerController.Update | Assets/Scripts/PlayerController.cs:48-113 | The fields after the frame and the impulse returned are exactly Step of the fields before, and the invariant is kept. |
| Player.PlayerController.TickCooldown | Assets/Scripts/PlayerController.cs:64-72 | The fields change as the cooldown block prescribes: the timer runs down, and on expiry throwing is re-enabled and a ball spawned. |
| Player.PlayerController.StartCharge | Assets/Scripts/PlayerController.cs:75-79 | The fields change as the press block prescribes: a charge starts from zero when a ball is held and throwing is allowed. |
| Player.PlayerController.AccumulateCharge | Assets/Scripts/PlayerController.cs:80-84 | The fields change as the hold block prescribes: the charge grows by dt, capped at maxChargeTime. |
| Player.PlayerController.Release | Assets/Scripts/PlayerController.cs:85-95 | The fields and returned impulse are those of the release block: a long enough charge throws, and charging always stops. |
| Player.PlayerController.Look | Assets/Scripts/PlayerController.cs:97-105 | The look angles move by the scaled mouse deltas and are clamped; nothing else changes. |
| Player.PlayerController.ShootBall | Assets/Scripts/PlayerController.cs:117-144 | The held ball is returned with the given force. The hand is then empty, throwing is disabled and the cooldown is set to throwCooldown. |
| Player.PlayerController.SpawnHeldBall | Assets/Scripts/PlayerController.cs:147-158 | The next ball number becomes the held ball and the spawn counter grows by one; nothing else changes. |
| FrameProperties.ChargeStart | Assets/Scripts/PlayerController.cs:75-79 | With no charge in progress and no release, a charge is in progress after the frame exactly when the button was pressed and a ball is held. The new charge is 0, or the frame's dt capped at maxChargeTime if the button is held. |
| FrameProperties.ChargeAccumulates | Assets/Scripts/PlayerController.cs:80-84 | Holding during a charge sets the charge to min(charge + dt, maxChargeTime). The charge never shrinks, stays within the maximum, and the same ball is held. |
| FrameProperties.ShortRelease | Assets/Scripts/PlayerController.cs:85-95 | Releasing a charge below minChargeTime only stops charging. Nothing is thrown. The held ball, canThrow, the cooldown timer and the spawn count are unchanged. |
| FrameProperties.Throw | Assets/Scripts/PlayerController.cs:85-95 | Releasing a charge of at least minChargeTime throws the held ball with ChargedForce of that charge. The hand is then empty, throwing is disabled, charging stops and the cooldown equals throwCooldown. |
| FrameProperties.ThrowOnlyAfterLongCharge | Assets/Scripts/PlayerController.cs:85-95 | In any frame, a throw happens if and only if the button is released during a charge of at least minChargeTime. The thrown ball is the one in hand. Its force is that charge's force and lies within the force settings. The cooldown then starts. |
| FrameProperties.HandTargetMonotone | Assets/Scripts/PlayerController.cs:53-54 | With a non-negative maxHandDrawback, a longer charge never draws the hand less far back. |
| FrameProperties.LaunchForceMonotone | Assets/Scripts/PlayerController.cs:89-90 | With min force <= max force, the launch force is non-decreasing in the charge time. |
| FrameProperties.CooldownTick | Assets/Scripts/PlayerController.cs:64-72 | While throwing is disabled, a frame that leaves the timer above zero decreases it by dt and spawns, holds and throws nothing. A frame that brings it to zero or below spawns exactly one ball, which is then held or thrown on that frame. |
| FrameProperties.SpawnOnlyWhenCooldownExpires | Assets/Scripts/PlayerController.cs:64-72 | The spawn count grows by one exactly on the frame the cooldown expires and is unchanged on every other frame. |
| FrameProperties.RotationClamped | Assets/Scripts/PlayerController.cs:97-105 | For any mouse deltas both look angles end within their limits. A move that stays within the limits is applied unchanged, and one past a limit ends exactly at that limit. |
| RunProperties.RunPreservesInv | Assets/Scripts/PlayerController.cs:48-113 | Every sequence of frames with non-negative dt keeps the controller invariant. |
| RunProperties.StepThrowsNextBall | Assets/Scripts/PlayerController.cs:140-141 | A frame throws at most one ball, and that ball is the next throwable one (the held ball, or else the next to spawn). |
| RunProperties.SpawnedIsHeldOrThrown | Assets/Scripts/PlayerController.cs:147-149 | In one frame, the balls thrown plus the balls held equals the balls spawned plus the balls held before. |
| RunProperties.ThrownInSpawnOrder | Assets/Scripts/PlayerController.cs:140-143 | Over any run, balls leave the hand in spawn order, with none thrown twice and none skipped. The i-th throw is ball NextThrowable + i. |
| RunProperties.BallsConserved | Assets/Scripts/PlayerController.cs:147-149 | Over any run, each ball from the next throwable one at the start up to the last spawned is either held at the end or among the throws, never both. No ball is thrown twice. The throws plus the ball held equal the balls spawned plus the ball held at the start. |
| RunProperties.CooldownLasts | Assets/Scripts/PlayerController.cs:64-72 | While the frames add up to less than the remaining cooldown, nothing is held, spawned or thrown. The timer drops by exactly the time passed. |
| RunProperties.RespawnAfterCooldown | Assets/Scripts/PlayerController.cs:64-72 | On the first frame by which the whole cooldown has passed, exactly one ball is spawned. It is then held or thrown. |

## Left out

- Exponential smoothing of the look angles (`smoothXRotation`, `smoothYRotation`, `Mathf.Exp`) and the camera write through `Quaternion.Euler` (lines 108-112): transcendental floating-point math and an engine call. `smoothTime` is kept in `Config` but unused.
- The hand's `Vector3.Lerp` towards its target (lines 56 and 61): cosmetic smoothing of an engine transform. Only the target position is modelled (`HandTarget`, and `HandTargetNow` on the class); `handMoveSmooth` is kept in `Config` but unused.
- Aiming in `ShootBall` (lines 119-138): the center-screen ray, `Physics.Raycast`, the 100-unit fallback point, normalization and `Rigidbody.AddForce`. The returned `Launch` records the ball and the force, not the direction.
- Engine setup: `Cursor.lockState`, `Instantiate`, parenting, the `isKinematic` toggles and the `spawnPoint != null` checks (lines 41-44, 149-157). The rest hand position is a constructor parameter. The model takes `spawnPoint` and `ballPrefab` to be assigned: the source checks `spawnPoint` for null at lines 43, 51 and 58 but dereferences it unchecked at lines 137 and 149, so with it unset `Start` stops at line 149 with `canThrow` true and no ball held, a state the model does not represent.
- Floating-point rounding: timers, forces and angles are exact reals.
- Player.PlayerController.Update: requires `dt >= 0`, which Unity's `Time.deltaTime` guarantees.
- Player.PlayerController.constructor: requires `maxChargeTime > 0` and non-negative rotation limits (`Config.WellFormed`). With `maxChargeTime == 0` the source divides by zero in floating point, which this model does not represent. With a negative rotation limit, `Mathf.Clamp` receives min > max and the look angles no longer stay within a range, so the invariant's angle bounds could not hold.
