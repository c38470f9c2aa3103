/** One frame of the player controller, as a pure transition on a snapshot of
    its fields. The class in module Player is proved to perform exactly this
    transition; the lemmas in FrameProperties and RunProperties are about it. */
module PlayerFrame {
  import opened Mathf
  import opened RealArith

  /** Balls are numbered in spawn order by the controller's spawn counter. */
  type BallId = nat

  datatype Option<T> = None | Some(value: T)

  /** The inspector-tunable settings of the controller. `handMoveSmooth` and
      `smoothTime` only drive the exponential smoothing, which is not modelled. */
  datatype Config = Config(
    maxHandDrawback: real,
    handMoveSmooth: real,
    mouseSensitivity: real,
    maxRotationX: real,
    maxRotationY: real,
    smoothTime: real,
    minChargeTime: real,
    minLaunchForce: real,
    maxLaunchForce: real,
    maxChargeTime: real,
    throwCooldown: real)
  {
    /** The charge fraction divides by `maxChargeTime`, and the look clamps use
        the symmetric ranges [-maxRotation, maxRotation]. */
    predicate WellFormed() {
      maxChargeTime > 0.0 && maxRotationX >= 0.0 && maxRotationY >= 0.0
    }
  }

  /** The values the fields are initialised with. */
  function Defaults(): (c: Config)
    ensures c.WellFormed()
    ensures c.minLaunchForce <= c.maxLaunchForce
    ensures 0.0 <= c.minChargeTime <= c.maxChargeTime
  {
    Config(0.5, 10.0, 100.0, 80.0, 80.0, 0.1, 0.1, 5.0, 25.0, 2.0, 1.0)
  }

  /** The controller's state fields (the smoothed rotations are left out). */
  datatype State = State(
    heldBall: Option<BallId>,
    canThrow: bool,
    cooldownTimer: real,
    isCharging: bool,
    chargeTimer: real,
    xRotation: real,
    yRotation: real,
    spawned: nat)

  /** What the engine hands one frame: `Time.deltaTime`, the left mouse button's
      Down / Held / Up flags, and the raw "Mouse X" / "Mouse Y" axes. */
  datatype Input = Input(
    dt: real,
    pressed: bool,
    held: bool,
    released: bool,
    axisX: real,
    axisY: real)

  /** An impulse applied by a throw: which ball, and how hard. */
  datatype Launch = Launch(ball: BallId, force: real)

  datatype Vec3 = Vec3(x: real, y: real, z: real)

  /** The controller's invariant: a ball is held exactly when a throw is
      allowed, charging needs a held ball, the held ball is the last one
      spawned, the charge stays within [0, maxChargeTime] and the look angles
      within their limits. */
  predicate Inv(cfg: Config, s: State) {
    && (s.canThrow <==> s.heldBall.Some?)
    && (s.isCharging ==> s.canThrow)
    && (s.heldBall.Some? ==> s.heldBall.value + 1 == s.spawned)
    && 0.0 <= s.chargeTimer <= cfg.maxChargeTime
    && -cfg.maxRotationX <= s.xRotation <= cfg.maxRotationX
    && -cfg.maxRotationY <= s.yRotation <= cfg.maxRotationY
  }

  /** SpawnHeldBall: a new ball, numbered by the spawn counter, becomes the held ball. */
  function Spawn(s: State): (r: State)
    ensures r.heldBall == Some(s.spawned) && r.spawned == s.spawned + 1
    ensures r.heldBall.value + 1 == r.spawned
    ensures r.(heldBall := s.heldBall, spawned := s.spawned) == s
  {
    s.(heldBall := Some(s.spawned), spawned := s.spawned + 1)
  }

  /** The state after Start: fresh fields and one spawned, held ball. */
  function Initial(cfg: Config): (s: State)
    ensures cfg.WellFormed() ==> Inv(cfg, s)
    ensures s.heldBall == Some(0) && s.spawned == 1
    ensures s.canThrow && !s.isCharging
  {
    Spawn(State(None, true, 0.0, false, 0.0, 0.0, 0.0, 0))
  }

  /** Cooldown: while throwing is not allowed the timer runs down; once it is
      at or below zero throwing is allowed again and a ball is spawned. */
  function CooldownPhase(s: State, dt: real): (r: State)
    ensures forall cfg: Config :: Inv(cfg, s) ==> Inv(cfg, r)
    ensures s.canThrow ==> r == s
    ensures !s.canThrow ==> (r.spawned == s.spawned + 1 <==> s.cooldownTimer - dt <= 0.0)
    ensures r.spawned != s.spawned ==>
              r.canThrow && r.heldBall == Some(s.spawned) && r.spawned == s.spawned + 1
    ensures r.spawned == s.spawned ==>
              r.heldBall == s.heldBall && r.canThrow == s.canThrow
    ensures !s.canThrow ==> r.cooldownTimer == s.cooldownTimer - dt
    ensures r.isCharging == s.isCharging && r.chargeTimer == s.chargeTimer
    ensures r.xRotation == s.xRotation && r.yRotation == s.yRotation
  {
    if !s.canThrow then
      var t := s.(cooldownTimer := s.cooldownTimer - dt);
      if t.cooldownTimer <= 0.0 then Spawn(t.(canThrow := true)) else t
    else s
  }

  /** Press: with a ball held and throwing allowed, charging starts from zero. */
  function PressPhase(s: State, pressed: bool): (r: State)
    ensures forall cfg: Config :: Inv(cfg, s) ==> Inv(cfg, r)
    ensures r.isCharging <==> s.isCharging || (pressed && s.canThrow && s.heldBall.Some?)
    ensures pressed && s.canThrow && s.heldBall.Some? ==> r.chargeTimer == 0.0
    ensures !pressed ==> r == s
    ensures r.(isCharging := s.isCharging, chargeTimer := s.chargeTimer) == s
  {
    if pressed && s.canThrow && s.heldBall.Some? then
      s.(isCharging := true, chargeTimer := 0.0)
    else s
  }

  /** Hold: while charging the timer grows by dt, capped at maxChargeTime. */
  function HoldPhase(cfg: Config, s: State, held: bool, dt: real): (r: State)
    ensures Inv(cfg, s) && dt >= 0.0 ==> Inv(cfg, r)
    ensures Inv(cfg, s) && dt >= 0.0 ==> s.chargeTimer <= r.chargeTimer <= cfg.maxChargeTime
    ensures s.isCharging && held ==> r.chargeTimer <= cfg.maxChargeTime
    ensures !(s.isCharging && held) ==> r == s
    ensures r.(chargeTimer := s.chargeTimer) == s
  {
    if s.isCharging && held then
      s.(chargeTimer := Min(s.chargeTimer + dt, cfg.maxChargeTime))
    else s
  }

  /** The force of a throw after `chargeTimer` seconds of charge: the charge
      fraction interpolates between the minimum and the maximum force. */
  function ChargedForce(cfg: Config, chargeTimer: real): (f: real)
    requires cfg.maxChargeTime > 0.0
    ensures cfg.minLaunchForce <= cfg.maxLaunchForce ==> cfg.minLaunchForce <= f <= cfg.maxLaunchForce
    ensures chargeTimer <= 0.0 ==> f == cfg.minLaunchForce
    ensures chargeTimer >= cfg.maxChargeTime ==> f == cfg.maxLaunchForce
  {
    FractionWithin(chargeTimer, cfg.maxChargeTime);
    var chargePercent := Fraction(chargeTimer, cfg.maxChargeTime);
    Lerp(cfg.minLaunchForce, cfg.maxLaunchForce, chargePercent)
  }

  /** ShootBall's effect on the state: the held ball is let go with the given
      force, throwing is disabled and the cooldown starts. */
  function Shoot(cfg: Config, s: State, force: real): (r: (State, Launch))
    requires s.heldBall.Some?
    ensures r.1.ball == s.heldBall.value && r.1.force == force
    ensures r.0.heldBall.None? && !r.0.canThrow && r.0.cooldownTimer == cfg.throwCooldown
    ensures r.0.(heldBall := s.heldBall, canThrow := s.canThrow, cooldownTimer := s.cooldownTimer) == s
  {
    (s.(heldBall := None, canThrow := false, cooldownTimer := cfg.throwCooldown),
     Launch(s.heldBall.value, force))
  }

  /** Release: a charge of at least minChargeTime throws the ball; in any case
      charging stops. */
  function ReleasePhase(cfg: Config, s: State, released: bool): (r: (State, Option<Launch>))
    requires cfg.maxChargeTime > 0.0
    ensures Inv(cfg, s) ==> Inv(cfg, r.0)
    ensures r.1.Some? <==>
              s.isCharging && released && s.canThrow && s.heldBall.Some? &&
              s.chargeTimer >= cfg.minChargeTime
    ensures r.1.Some? ==>
              && r.1.value == Launch(s.heldBall.value, ChargedForce(cfg, s.chargeTimer))
              && r.0.heldBall.None? && !r.0.canThrow && r.0.cooldownTimer == cfg.throwCooldown
    ensures r.1.None? ==> r.0.heldBall == s.heldBall && r.0.canThrow == s.canThrow &&
                          r.0.cooldownTimer == s.cooldownTimer
    ensures Inv(cfg, s) && released ==> !r.0.isCharging
    ensures !released ==> r == (s, None)
    ensures r.0.chargeTimer == s.chargeTimer && r.0.spawned == s.spawned
    ensures r.0.xRotation == s.xRotation && r.0.yRotation == s.yRotation
  {
    if s.isCharging && released && s.canThrow && s.heldBall.Some? then
      if s.chargeTimer >= cfg.minChargeTime then
        var shot := Shoot(cfg, s, ChargedForce(cfg, s.chargeTimer));
        (shot.0.(isCharging := false), Some(shot.1))
      else
        (s.(isCharging := false), None)
    else
      (s, None)
  }

  /** Look: the mouse deltas, scaled by sensitivity and dt, move the angles,
      which are then clamped to their limits. */
  function LookPhase(cfg: Config, s: State, axisX: real, axisY: real, dt: real): (r: State)
    ensures cfg.maxRotationX >= 0.0 ==> -cfg.maxRotationX <= r.xRotation <= cfg.maxRotationX
    ensures cfg.maxRotationY >= 0.0 ==> -cfg.maxRotationY <= r.yRotation <= cfg.maxRotationY
    ensures cfg.WellFormed() && Inv(cfg, s) ==> Inv(cfg, r)
    ensures r.(xRotation := s.xRotation, yRotation := s.yRotation) == s
  {
    var mouseX := axisX * cfg.mouseSensitivity * dt;
    var mouseY := axisY * cfg.mouseSensitivity * dt;
    s.(xRotation := Clamp(s.xRotation - mouseY, -cfg.maxRotationX, cfg.maxRotationX),
       yRotation := Clamp(s.yRotation + mouseX, -cfg.maxRotationY, cfg.maxRotationY))
  }

  /** The state just before the release test of a frame. */
  function BeforeRelease(cfg: Config, s: State, inp: Input): State {
    HoldPhase(cfg, PressPhase(CooldownPhase(s, inp.dt), inp.pressed), inp.held, inp.dt)
  }

  /** One call of Update: the new state and the throw it made, if any.
      Every frame with a non-negative dt keeps the invariant. */
  function Step(cfg: Config, s: State, inp: Input): (r: (State, Option<Launch>))
    requires cfg.WellFormed()
    ensures Inv(cfg, s) && inp.dt >= 0.0 ==> Inv(cfg, r.0)
  {
    var released := ReleasePhase(cfg, BeforeRelease(cfg, s, inp), inp.released);
    (LookPhase(cfg, released.0, inp.axisX, inp.axisY, inp.dt), released.1)
  }

  /** The point the hand is drawn towards this frame: while charging it moves
      back along z in proportion to the charge fraction, otherwise it is the
      rest position. */
  function HandTarget(cfg: Config, rest: Vec3, isCharging: bool, chargeTimer: real): (p: Vec3)
    requires cfg.maxChargeTime > 0.0
    ensures p.x == rest.x && p.y == rest.y
    ensures !isCharging ==> p == rest
    ensures 0.0 <= chargeTimer <= cfg.maxChargeTime && cfg.maxHandDrawback >= 0.0 ==>
              rest.z - cfg.maxHandDrawback <= p.z <= rest.z
    ensures isCharging && chargeTimer == cfg.maxChargeTime ==> p.z == rest.z - cfg.maxHandDrawback
    ensures isCharging && chargeTimer == 0.0 ==> p == rest
  {
    if isCharging then
      FractionWithin(chargeTimer, cfg.maxChargeTime);
      var chargePercent := Fraction(chargeTimer, cfg.maxChargeTime);
      ScaleWithin(cfg.maxHandDrawback, chargePercent);
      Vec3(rest.x, rest.y, rest.z - Scale(cfg.maxHandDrawback, chargePercent))
    else
      rest
  }
}
