/** The player controller as the engine sees it: an object whose fields are
    updated in place once per frame. */
module Player {
  import opened Mathf
  import opened PlayerFrame

  class PlayerController {
    /** The tunable settings, fixed once the component starts. */
    const cfg: Config
    /** The hand's local position when Start ran. */
    const restHandPos: Vec3

    var heldBall: Option<BallId>
    var canThrow: bool
    var cooldownTimer: real
    var isCharging: bool
    var chargeTimer: real
    var xRotation: real
    var yRotation: real
    /** How many balls SpawnHeldBall has created; the next ball gets this number. */
    var spawned: nat

    /** The fields as a value of the frame model. */
    function Snapshot(): State
      reads this
    {
      State(heldBall, canThrow, cooldownTimer, isCharging, chargeTimer, xRotation, yRotation, spawned)
    }

    ghost predicate Valid()
      reads this
    {
      cfg.WellFormed() && Inv(cfg, Snapshot())
    }

    /** Where the hand is drawn towards on this frame: the rest position, or
        while charging up to maxHandDrawback behind it in proportion to the
        charge. It never leaves the segment from the rest position back to the
        full drawback. */
    function HandTargetNow(): (p: Vec3)
      reads this
      requires Valid()
      ensures p.x == restHandPos.x && p.y == restHandPos.y
      ensures !isCharging ==> p == restHandPos
      ensures cfg.maxHandDrawback >= 0.0 ==>
                restHandPos.z - cfg.maxHandDrawback <= p.z <= restHandPos.z
      ensures isCharging && chargeTimer == cfg.maxChargeTime ==>
                p.z == restHandPos.z - cfg.maxHandDrawback
      ensures chargeTimer == 0.0 ==> p == restHandPos
    {
      HandTarget(cfg, restHandPos, isCharging, chargeTimer)
    }

    /** Start: the fields take their initial values and one ball is spawned and held. */
    constructor (config: Config, handRest: Vec3)
      requires config.WellFormed()
      ensures Valid()
      ensures cfg == config && restHandPos == handRest
      ensures Snapshot() == Initial(config)
    {
      cfg := config;
      restHandPos := handRest;
      heldBall := None;
      canThrow := true;
      cooldownTimer := 0.0;
      isCharging := false;
      chargeTimer := 0.0;
      xRotation := 0.0;
      yRotation := 0.0;
      spawned := 0;
      new;
      SpawnHeldBall();
    }

    /** One frame: the cooldown, charge and release steps of the throw
        mechanic, then the look update. The result is the impulse applied by
        a throw on this frame, if any. */
    method Update(inp: Input) returns (launch: Option<Launch>)
      requires Valid()
      requires inp.dt >= 0.0
      modifies this
      ensures Valid()
      ensures (Snapshot(), launch) == Step(cfg, old(Snapshot()), inp)
    {
      TickCooldown(inp.dt);
      StartCharge(inp.pressed);
      AccumulateCharge(inp.held, inp.dt);
      launch := Release(inp.released);
      Look(inp.axisX, inp.axisY, inp.dt);
    }

    /** While throwing is not allowed the timer runs down by dt; when it is
        at or below zero throwing is allowed again and a new ball is held. */
    method TickCooldown(dt: real)
      modifies this
      ensures Snapshot() == CooldownPhase(old(Snapshot()), dt)
    {
      if !canThrow {
        cooldownTimer := cooldownTimer - dt;
        if cooldownTimer <= 0.0 {
          canThrow := true;
          SpawnHeldBall();
        }
      }
    }

    /** A press with a ball held and throwing allowed starts a charge from zero. */
    method StartCharge(pressed: bool)
      modifies this
      ensures Snapshot() == PressPhase(old(Snapshot()), pressed)
    {
      if pressed && canThrow && heldBall.Some? {
        isCharging := true;
        chargeTimer := 0.0;
      }
    }

    /** While charging with the button held the charge grows by dt, capped at maxChargeTime. */
    method AccumulateCharge(held: bool, dt: real)
      modifies this
      ensures Snapshot() == HoldPhase(cfg, old(Snapshot()), held, dt)
    {
      if isCharging && held {
        chargeTimer := chargeTimer + dt;
        chargeTimer := Min(chargeTimer, cfg.maxChargeTime);
      }
    }

    /** On release of a charge, a charge of at least minChargeTime throws the
        ball with the interpolated force; charging stops either way. */
    method Release(released: bool) returns (launch: Option<Launch>)
      requires cfg.maxChargeTime > 0.0
      modifies this
      ensures (Snapshot(), launch) == ReleasePhase(cfg, old(Snapshot()), released)
    {
      launch := None;
      if isCharging && released && canThrow && heldBall.Some? {
        if chargeTimer >= cfg.minChargeTime {
          var chargePercent := chargeTimer / cfg.maxChargeTime;
          var chargedForce := Lerp(cfg.minLaunchForce, cfg.maxLaunchForce, chargePercent);
          var shot := ShootBall(chargedForce);
          launch := Some(shot);
        }
        isCharging := false;
      }
    }

    /** The scaled mouse deltas move the look angles, which are then clamped. */
    method Look(axisX: real, axisY: real, dt: real)
      modifies this
      ensures Snapshot() == LookPhase(cfg, old(Snapshot()), axisX, axisY, dt)
    {
      var mouseX := axisX * cfg.mouseSensitivity * dt;
      var mouseY := axisY * cfg.mouseSensitivity * dt;
      yRotation := yRotation + mouseX;
      xRotation := xRotation - mouseY;
      xRotation := Clamp(xRotation, -cfg.maxRotationX, cfg.maxRotationX);
      yRotation := Clamp(yRotation, -cfg.maxRotationY, cfg.maxRotationY);
    }

    /** Throws the held ball with the given force: it is no longer held,
        throwing is disabled and the cooldown starts. */
    method ShootBall(customForce: real) returns (shot: Launch)
      requires heldBall.Some?
      modifies this
      ensures (Snapshot(), shot) == Shoot(cfg, old(Snapshot()), customForce)
    {
      shot := Launch(heldBall.value, customForce);
      heldBall := None;
      canThrow := false;
      cooldownTimer := cfg.throwCooldown;
    }

    /** Creates a new ball, numbered by the spawn counter, and holds it. */
    method SpawnHeldBall()
      modifies this
      ensures Snapshot() == Spawn(old(Snapshot()))
    {
      heldBall := Some(spawned);
      spawned := spawned + 1;
    }
  }
}
