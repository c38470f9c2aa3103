/** What holds over any sequence of frames: the invariant, the order in which
    balls leave the hand, and how long the cooldown lasts. */
module RunProperties {
  import opened PlayerFrame
  import opened FrameProperties

  /** The impulses a frame applied, as a sequence. */
  function Emitted(l: Option<Launch>): seq<Launch> {
    match l
    case None => []
    case Some(x) => [x]
  }

  /** The engine calling Update once per frame: the final state and every
      throw made on the way, in order. */
  function Run(cfg: Config, s: State, frames: seq<Input>): (State, seq<Launch>)
    requires cfg.WellFormed()
    decreases |frames|
  {
    if |frames| == 0 then (s, [])
    else
      var st := Step(cfg, s, frames[0]);
      var rest := Run(cfg, st.0, frames[1..]);
      (rest.0, Emitted(st.1) + rest.1)
  }

  /** The engine never reports a negative frame time. */
  predicate NonNegative(frames: seq<Input>) {
    forall i :: 0 <= i < |frames| ==> frames[i].dt >= 0.0
  }

  /** The time the frames span. */
  function TotalTime(frames: seq<Input>): real {
    if |frames| == 0 then 0.0 else frames[0].dt + TotalTime(frames[1..])
  }

  function HeldCount(s: State): nat {
    if s.heldBall.Some? then 1 else 0
  }

  /** The ball that will leave the hand next: the held one, or else the next to be spawned. */
  function NextThrowable(s: State): nat {
    if s.heldBall.Some? then s.heldBall.value else s.spawned
  }

  lemma {:induction false} TotalTimeNonNegative(frames: seq<Input>)
    requires NonNegative(frames)
    ensures TotalTime(frames) >= 0.0
  {
    if |frames| > 0 {
      TotalTimeNonNegative(frames[1..]);
    }
  }

  /** Start establishes the invariant and every sequence of frames keeps it. */
  lemma {:induction false} RunPreservesInv(cfg: Config, s: State, frames: seq<Input>)
    requires cfg.WellFormed() && Inv(cfg, s) && NonNegative(frames)
    ensures Inv(cfg, Run(cfg, s, frames).0)
    decreases |frames|
  {
    if |frames| > 0 {
      RunPreservesInv(cfg, Step(cfg, s, frames[0]).0, frames[1..]);
    }
  }

  /** One frame throws at most one ball, and it is the next throwable one. */
  lemma StepThrowsNextBall(cfg: Config, s: State, inp: Input)
    requires cfg.WellFormed() && Inv(cfg, s) && inp.dt >= 0.0
    ensures var st := Step(cfg, s, inp);
            && NextThrowable(st.0) == NextThrowable(s) + |Emitted(st.1)|
            && (st.1.Some? ==> st.1.value.ball == NextThrowable(s))
  {
    ThrowOnlyAfterLongCharge(cfg, s, inp);
  }

  /** Across one frame, each ball spawned is still held or was thrown on it. */
  lemma SpawnedIsHeldOrThrown(cfg: Config, s: State, inp: Input)
    requires cfg.WellFormed() && Inv(cfg, s) && inp.dt >= 0.0
    ensures var st := Step(cfg, s, inp);
            |Emitted(st.1)| + HeldCount(st.0) == st.0.spawned - s.spawned + HeldCount(s)
  {
    StepThrowsNextBall(cfg, s, inp);
  }

  /** Balls leave the hand one at a time in spawn order, none twice and none
      skipped: the i-th throw of a run is ball NextThrowable(s) + i. */
  lemma {:induction false} ThrownInSpawnOrder(cfg: Config, s: State, frames: seq<Input>)
    requires cfg.WellFormed() && Inv(cfg, s) && NonNegative(frames)
    ensures var run := Run(cfg, s, frames);
            && |run.1| == NextThrowable(run.0) - NextThrowable(s)
            && forall i :: 0 <= i < |run.1| ==> run.1[i].ball == NextThrowable(s) + i
    decreases |frames|
  {
    if |frames| > 0 {
      var st := Step(cfg, s, frames[0]);
      StepThrowsNextBall(cfg, s, frames[0]);
      ThrownInSpawnOrder(cfg, st.0, frames[1..]);
      var rest := Run(cfg, st.0, frames[1..]);
      var all := Emitted(st.1) + rest.1;
      forall i | 0 <= i < |all|
        ensures all[i].ball == NextThrowable(s) + i
      {
        if i >= |Emitted(st.1)| {
          assert all[i] == rest.1[i - |Emitted(st.1)|];
        }
      }
    }
  }

  /** Whether ball `b` is among the throws. */
  predicate Thrown(launches: seq<Launch>, b: BallId) {
    exists i :: 0 <= i < |launches| && launches[i].ball == b
  }

  /** No ball is lost or made twice: every ball that could still leave the hand
      when the run starts, up to the last one spawned, is either held at its
      end or was thrown, never both; no ball is thrown twice; and the throws
      plus the ball held account for exactly the balls spawned. */
  lemma BallsConserved(cfg: Config, s: State, frames: seq<Input>)
    requires cfg.WellFormed() && Inv(cfg, s) && NonNegative(frames)
    ensures var run := Run(cfg, s, frames);
            |run.1| + HeldCount(run.0) == run.0.spawned - s.spawned + HeldCount(s)
    ensures var run := Run(cfg, s, frames);
            forall b :: NextThrowable(s) <= b < run.0.spawned ==>
              (run.0.heldBall == Some(b) <==> !Thrown(run.1, b))
    ensures var run := Run(cfg, s, frames);
            forall i, j :: 0 <= i < j < |run.1| ==> run.1[i].ball != run.1[j].ball
  {
    RunPreservesInv(cfg, s, frames);
    ThrownInSpawnOrder(cfg, s, frames);
    var run := Run(cfg, s, frames);
    forall b | NextThrowable(s) <= b < run.0.spawned
      ensures run.0.heldBall == Some(b) <==> !Thrown(run.1, b)
    {
      if b < NextThrowable(run.0) {
        assert run.1[b - NextThrowable(s)].ball == b;
      }
    }
  }

  /** While less time than the remaining cooldown passes, nothing is held,
      spawned or thrown, and the timer drops by exactly the time passed. */
  lemma {:induction false} CooldownLasts(cfg: Config, s: State, frames: seq<Input>)
    requires cfg.WellFormed() && Inv(cfg, s) && NonNegative(frames)
    requires !s.canThrow && TotalTime(frames) < s.cooldownTimer
    ensures var run := Run(cfg, s, frames);
            && run.0.heldBall.None? && !run.0.canThrow && run.1 == []
            && run.0.spawned == s.spawned
            && run.0.cooldownTimer == s.cooldownTimer - TotalTime(frames)
    decreases |frames|
  {
    if |frames| > 0 {
      var f := frames[0];
      TotalTimeNonNegative(frames[1..]);
      CooldownTick(cfg, s, f);
      CooldownLasts(cfg, Step(cfg, s, f).0, frames[1..]);
    }
  }

  /** Running one more frame after a run is one more Step. */
  lemma {:induction false} RunSnoc(cfg: Config, s: State, frames: seq<Input>, f: Input)
    requires cfg.WellFormed()
    ensures var run := Run(cfg, s, frames);
            var st := Step(cfg, run.0, f);
            Run(cfg, s, frames + [f]) == (st.0, run.1 + Emitted(st.1))
    decreases |frames|
  {
    if |frames| == 0 {
      var st := Step(cfg, s, f);
      assert frames + [f] == [f] && [f][1..] == [];
      assert Run(cfg, s, frames) == (s, []);
      assert Run(cfg, st.0, []) == (st.0, []);
      assert Run(cfg, s, [f]) == (st.0, Emitted(st.1) + []);
      assert Emitted(st.1) + [] == [] + Emitted(st.1);
    } else {
      var first := Step(cfg, s, frames[0]);
      var tail := frames[1..];
      assert (frames + [f])[0] == frames[0];
      assert (frames + [f])[1..] == tail + [f];
      RunSnoc(cfg, first.0, tail, f);
      var inner := Run(cfg, first.0, tail);
      assert Run(cfg, s, frames) == (inner.0, Emitted(first.1) + inner.1);
      var st := Step(cfg, inner.0, f);
      calc {
        Run(cfg, s, frames + [f]);
        (Run(cfg, first.0, tail + [f]).0, Emitted(first.1) + Run(cfg, first.0, tail + [f]).1);
        (st.0, Emitted(first.1) + (inner.1 + Emitted(st.1)));
        { assert Emitted(first.1) + (inner.1 + Emitted(st.1)) == (Emitted(first.1) + inner.1) + Emitted(st.1); }
        (st.0, (Emitted(first.1) + inner.1) + Emitted(st.1));
      }
    }
  }

  /** On the first frame by which the whole cooldown has passed, exactly one
      ball is spawned, and it is either held or thrown on that frame. */
  lemma RespawnAfterCooldown(cfg: Config, s: State, frames: seq<Input>, f: Input)
    requires cfg.WellFormed() && Inv(cfg, s) && NonNegative(frames) && f.dt >= 0.0
    requires !s.canThrow && TotalTime(frames) < s.cooldownTimer
    requires TotalTime(frames) + f.dt >= s.cooldownTimer
    ensures var run := Run(cfg, s, frames + [f]);
            && run.0.spawned == s.spawned + 1
            && |run.1| + HeldCount(run.0) == 1
  {
    CooldownLasts(cfg, s, frames);
    RunSnoc(cfg, s, frames, f);
    var mid := Run(cfg, s, frames);
    assert mid.1 == [];
    RunPreservesInv(cfg, s, frames);
    var st := Step(cfg, mid.0, f);
    CooldownTick(cfg, mid.0, f);
    StepThrowsNextBall(cfg, mid.0, f);
    assert Run(cfg, s, frames + [f]) == (st.0, [] + Emitted(st.1));
    assert HeldCount(st.0) + |Emitted(st.1)| == 1 by {
      SpawnedIsHeldOrThrown(cfg, mid.0, f);
    }
  }
}
