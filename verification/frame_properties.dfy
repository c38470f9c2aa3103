/** What one frame of the controller guarantees: when a charge starts, grows
    and ends, when a ball is thrown or spawned, and where the look angles go. */
module FrameProperties {
  import opened Mathf
  import opened PlayerFrame
  import opened RealArith

  /** The charge a frame ends with before its release test, when no new charge
      starts on that frame. */
  function HeldCharge(cfg: Config, s: State, inp: Input): real {
    if inp.held then Min(s.chargeTimer + inp.dt, cfg.maxChargeTime) else s.chargeTimer
  }

  /** Without a charge in progress and without a release, a charge is in
      progress after the frame exactly when the button was pressed and a ball
      is held; a new charge starts from zero. */
  lemma ChargeStart(cfg: Config, s: State, inp: Input)
    requires cfg.WellFormed() && Inv(cfg, s) && inp.dt >= 0.0
    requires !s.isCharging && !inp.released
    ensures var r := Step(cfg, s, inp).0;
            && (r.isCharging <==> inp.pressed && r.heldBall.Some?)
            && (r.isCharging ==> r.chargeTimer == if inp.held then Min(inp.dt, cfg.maxChargeTime) else 0.0)
  {
  }

  /** Holding the button during a charge adds dt to the charge, capped at
      maxChargeTime; the charge never shrinks and the ball stays in hand. */
  lemma ChargeAccumulates(cfg: Config, s: State, inp: Input)
    requires cfg.WellFormed() && Inv(cfg, s) && inp.dt >= 0.0
    requires s.isCharging && !inp.pressed && inp.held && !inp.released
    ensures var r := Step(cfg, s, inp).0;
            && r.isCharging && r.heldBall == s.heldBall
            && r.chargeTimer == Min(s.chargeTimer + inp.dt, cfg.maxChargeTime)
            && s.chargeTimer <= r.chargeTimer <= cfg.maxChargeTime
  {
  }

  /** Releasing a charge shorter than minChargeTime only ends the charge: the
      same ball is still held, nothing is thrown and the cooldown is untouched. */
  lemma ShortRelease(cfg: Config, s: State, inp: Input)
    requires cfg.WellFormed() && Inv(cfg, s) && inp.dt >= 0.0
    requires s.isCharging && !inp.pressed && inp.released
    requires HeldCharge(cfg, s, inp) < cfg.minChargeTime
    ensures var st := Step(cfg, s, inp);
            && !st.0.isCharging && st.1.None?
            && st.0.heldBall == s.heldBall && st.0.canThrow == s.canThrow
            && st.0.cooldownTimer == s.cooldownTimer && st.0.spawned == s.spawned
  {
  }

  /** Releasing a charge of at least minChargeTime throws the held ball with
      the force of that charge, empties the hand and starts the cooldown. */
  lemma Throw(cfg: Config, s: State, inp: Input)
    requires cfg.WellFormed() && Inv(cfg, s) && inp.dt >= 0.0
    requires s.isCharging && !inp.pressed && inp.released
    requires HeldCharge(cfg, s, inp) >= cfg.minChargeTime
    ensures s.heldBall.Some?
    ensures var st := Step(cfg, s, inp);
            && st.1 == Some(Launch(s.heldBall.value, ChargedForce(cfg, HeldCharge(cfg, s, inp))))
            && st.0.heldBall.None? && !st.0.canThrow && !st.0.isCharging
            && st.0.cooldownTimer == cfg.throwCooldown && st.0.spawned == s.spawned
  {
  }

  /** In every frame, a ball is thrown exactly when the button is released
      during a charge of at least minChargeTime (counted up to the release
      test); the thrown ball is the one in hand, its force is that of the
      charge and lies between the two force settings, and the hand is then
      empty with the cooldown started. */
  lemma ThrowOnlyAfterLongCharge(cfg: Config, s: State, inp: Input)
    requires cfg.WellFormed() && Inv(cfg, s) && inp.dt >= 0.0
    ensures var m := BeforeRelease(cfg, s, inp);
            var st := Step(cfg, s, inp);
            && (st.1.Some? <==> inp.released && m.isCharging && m.chargeTimer >= cfg.minChargeTime)
            && (st.1.Some? ==>
                  && m.heldBall.Some?
                  && st.1.value == Launch(m.heldBall.value, ChargedForce(cfg, m.chargeTimer))
                  && cfg.minChargeTime <= m.chargeTimer <= cfg.maxChargeTime
                  && (cfg.minLaunchForce <= cfg.maxLaunchForce ==>
                        cfg.minLaunchForce <= st.1.value.force <= cfg.maxLaunchForce)
                  && st.0.heldBall.None? && !st.0.canThrow && !st.0.isCharging
                  && st.0.cooldownTimer == cfg.throwCooldown)
  {
    var c := CooldownPhase(s, inp.dt);
    assert Inv(cfg, c);
    var p := PressPhase(c, inp.pressed);
    assert Inv(cfg, p);
    var m := HoldPhase(cfg, p, inp.held, inp.dt);
    assert Inv(cfg, m);
  }

  /** With min <= max force, a longer charge never gives a weaker throw. */
  lemma LaunchForceMonotone(cfg: Config, c1: real, c2: real)
    requires cfg.maxChargeTime > 0.0 && cfg.minLaunchForce <= cfg.maxLaunchForce
    requires c1 <= c2
    ensures ChargedForce(cfg, c1) <= ChargedForce(cfg, c2)
  {
    FractionMonotone(c1, c2, cfg.maxChargeTime);
    LerpMonotone(cfg.minLaunchForce, cfg.maxLaunchForce,
                 Fraction(c1, cfg.maxChargeTime), Fraction(c2, cfg.maxChargeTime));
  }

  /** A longer charge never draws the hand less far back. */
  lemma HandTargetMonotone(cfg: Config, rest: Vec3, c1: real, c2: real)
    requires cfg.maxChargeTime > 0.0 && cfg.maxHandDrawback >= 0.0
    requires c1 <= c2
    ensures HandTarget(cfg, rest, true, c2).z <= HandTarget(cfg, rest, true, c1).z
  {
    FractionMonotone(c1, c2, cfg.maxChargeTime);
    ScaleMonotone(cfg.maxHandDrawback, Fraction(c1, cfg.maxChargeTime), Fraction(c2, cfg.maxChargeTime));
  }

  /** While throwing is not allowed, the frame runs the cooldown down by dt.
      Before it expires nothing is held, spawned or thrown; on the frame it
      expires exactly one ball is spawned, which is then held or, if it was
      charged and released within that frame, thrown. */
  lemma CooldownTick(cfg: Config, s: State, inp: Input)
    requires cfg.WellFormed() && Inv(cfg, s) && inp.dt >= 0.0
    requires !s.canThrow
    ensures var st := Step(cfg, s, inp);
            s.cooldownTimer - inp.dt > 0.0 ==>
              && st.0.heldBall.None? && !st.0.canThrow && !st.0.isCharging && st.1.None?
              && st.0.cooldownTimer == s.cooldownTimer - inp.dt && st.0.spawned == s.spawned
    ensures var st := Step(cfg, s, inp);
            s.cooldownTimer - inp.dt <= 0.0 ==>
              && st.0.spawned == s.spawned + 1
              && ((st.0.canThrow && st.0.heldBall == Some(s.spawned)) ||
                  (st.1.Some? && st.1.value.ball == s.spawned))
  {
  }

  /** A ball is spawned on a frame exactly when the cooldown expires on it;
      no other frame spawns one. */
  lemma SpawnOnlyWhenCooldownExpires(cfg: Config, s: State, inp: Input)
    requires cfg.WellFormed() && Inv(cfg, s) && inp.dt >= 0.0
    ensures Step(cfg, s, inp).0.spawned ==
              if !s.canThrow && s.cooldownTimer - inp.dt <= 0.0 then s.spawned + 1 else s.spawned
  {
  }

  /** After any frame, whatever the mouse deltas, both look angles are within
      their limits; a move that stays within the limits is applied unchanged,
      and one past a limit ends exactly at that limit. */
  lemma RotationClamped(cfg: Config, s: State, inp: Input)
    requires cfg.WellFormed()
    ensures var r := Step(cfg, s, inp).0;
            && -cfg.maxRotationX <= r.xRotation <= cfg.maxRotationX
            && -cfg.maxRotationY <= r.yRotation <= cfg.maxRotationY
    ensures var r := Step(cfg, s, inp).0;
            var x := s.xRotation - inp.axisY * cfg.mouseSensitivity * inp.dt;
            -cfg.maxRotationX <= x <= cfg.maxRotationX ==> r.xRotation == x
    ensures var r := Step(cfg, s, inp).0;
            var y := s.yRotation + inp.axisX * cfg.mouseSensitivity * inp.dt;
            -cfg.maxRotationY <= y <= cfg.maxRotationY ==> r.yRotation == y
    ensures var r := Step(cfg, s, inp).0;
            var x := s.xRotation - inp.axisY * cfg.mouseSensitivity * inp.dt;
            && (x < -cfg.maxRotationX ==> r.xRotation == -cfg.maxRotationX)
            && (x > cfg.maxRotationX ==> r.xRotation == cfg.maxRotationX)
    ensures var r := Step(cfg, s, inp).0;
            var y := s.yRotation + inp.axisX * cfg.mouseSensitivity * inp.dt;
            && (y < -cfg.maxRotationY ==> r.yRotation == -cfg.maxRotationY)
            && (y > cfg.maxRotationY ==> r.yRotation == cfg.maxRotationY)
  {
  }
}
