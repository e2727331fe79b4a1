/** Where the refinement of SelectorRefinement ends: for each setting it leaves
    out, how the two selectors part. */
module SelectorLimits {
  import opened Runs
  import opened SelectorSpec

  // ---- mcs_min above mcs_max

  /** The two emit different MCS from the first sample on. */
  lemma {:induction false} CrossedClampsPart(cfg: Cfg, now: int, rssi: real)
    requires cfg.mcsMin > cfg.mcsMax
    ensures var run := [Sample(now, rssi)]; After(C, cfg, run).mcs != After(Python, cfg, run).mcs
  {
    var run := [Sample(now, rssi)];
    assert Front(run) == [] && Last(run) == run[0];
    ClampsAgreeIff(BucketFor(rssi, -1, cfg), cfg);
  }

  // ---- A zero window

  /** How often the MCS has changed. */
  function Changed(impl: Impl, cfg: Cfg, run: Run): nat {
    if run == [] then 0
    else
      var s := After(impl, cfg, Front(run));
      Changed(impl, cfg, Front(run)) + if Next(impl, cfg, s, Last(run)).0.mcs != s.mcs then 1 else 0
  }

  function AtMost16(n: nat): nat {
    if n > OSC_RING then OSC_RING else n
  }

  /** What an event does to the change times under a zero window. */
  lemma {:induction false} ZeroWindowStep(impl: Impl, cfg: Cfg, s: Sel, e: Event)
    requires Micros(cfg.window) == 0 && (impl == C ==> |s.changes| <= OSC_RING) && (impl == Python ==> s.changes == [])
    ensures var t := Next(impl, cfg, s, e).0;
            |t.changes| == if impl == Python then 0 else if t.mcs != s.mcs then AtMost16(|s.changes| + 1) else |s.changes|
  {
  }

  /** In every run C remembers the last 16 changes for ever and Python none, so
      they differ on oscillation exactly when as many changes as the threshold
      have happened. */
  lemma {:induction false} ZeroWindowParts(cfg: Cfg, run: Run)
    requires Micros(cfg.window) == 0 && 0 < cfg.threshold <= OSC_RING
    ensures After(Python, cfg, run).changes == [] && |After(C, cfg, run).changes| == AtMost16(Changed(C, cfg, run))
    ensures Oscillating(cfg, After(C, cfg, run).changes) != Oscillating(cfg, After(Python, cfg, run).changes)
            <==> Changed(C, cfg, run) >= cfg.threshold
  {
    if run != [] {
      ZeroWindowParts(cfg, Front(run));
      ZeroWindowStep(C, cfg, After(C, cfg, Front(run)), Last(run));
      ZeroWindowStep(Python, cfg, After(Python, cfg, Front(run)), Last(run));
    }
  }

  // ---- A threshold above the ring

  lemma {:induction false} RingIsBounded(cfg: Cfg, run: Run)
    ensures |After(C, cfg, run).changes| <= OSC_RING
  {
    if run != [] {
      RingIsBounded(cfg, Front(run));
      BoundedStep(cfg, After(C, cfg, Front(run)), Last(run));
    }
  }

  lemma {:induction false} BoundedStep(cfg: Cfg, s: Sel, e: Event)
    requires |s.changes| <= OSC_RING
    ensures |Next(C, cfg, s, e).0.changes| <= OSC_RING
  {
  }

  /** Settings under which alternating samples change the MCS every time. */
  predicate Nervous(cfg: Cfg) {
    && cfg.lo <= cfg.hi && cfg.deadband >= 0.0 && cfg.upConsecutive <= 1 && cfg.downConsecutive <= 1
    && cfg.upCooldown == 0.0 && cfg.downCooldown == 0.0 && Micros(cfg.window) > 1
    && McsFor(Python, 0, cfg) != -1 && McsFor(Python, 0, cfg) != McsFor(Python, 2, cfg)
  }

  /** n samples, low and high in turn. */
  function Flips(cfg: Cfg, n: nat): Run {
    if n == 0 then []
    else Flips(cfg, n - 1) + [Sample(1, if n % 2 == 1 then cfg.lo - cfg.deadband - 1.0 else cfg.hi + cfg.deadband)]
  }

  predicate Flipped(cfg: Cfg, s: Sel, n: nat) {
    && s.bucket == (if n % 2 == 1 then 0 else 2) && s.mcs == McsFor(Python, s.bucket, cfg)
    && !s.inFailsafe && s.pending == -1 && s.lastChange == 1 && |s.changes| == n
  }

  lemma {:induction false} FlipStep(cfg: Cfg, s: Sel, n: nat)
    requires Nervous(cfg) && n > 0 && (if n == 1 then s == START else Flipped(cfg, s, n - 1))
    ensures Flipped(cfg, Next(Python, cfg, s, Last(Flips(cfg, n))).0, n)
  {
    var x := Last(Flips(cfg, n)).rssi;
    assert BucketFor(x, s.bucket, cfg) == if n % 2 == 1 then 0 else 2;
  }

  lemma {:induction false} FlipsChange(cfg: Cfg, n: nat)
    requires Nervous(cfg) && n > 0
    ensures Clocked(Flips(cfg, n)) && ClockOf(Flips(cfg, n)) == 1
    ensures Flipped(cfg, After(Python, cfg, Flips(cfg, n)), n)
  {
    assert Front(Flips(cfg, n)) == Flips(cfg, n - 1);
    if n > 1 {
      FlipsChange(cfg, n - 1);
    }
    FlipStep(cfg, After(Python, cfg, Flips(cfg, n - 1)), n);
  }

  /** C never oscillates, whatever the run; Python does after as many changes as
      the threshold. */
  lemma {:induction false} HighThresholdParts(cfg: Cfg, run: Run)
    requires cfg.threshold > OSC_RING
    ensures !Oscillating(cfg, After(C, cfg, run).changes)
    ensures Nervous(cfg) ==>
              var flips := Flips(cfg, cfg.threshold);
              Clocked(flips) && Oscillating(cfg, After(Python, cfg, flips).changes)
              && !Oscillating(cfg, After(C, cfg, flips).changes)
  {
    RingIsBounded(cfg, run);
    if Nervous(cfg) {
      FlipsChange(cfg, cfg.threshold);
      RingIsBounded(cfg, Flips(cfg, cfg.threshold));
    }
  }

  // ---- A clock that goes back

  /** A sample from before the last change that asks for another bucket often
      enough, with any cooldown that 64 bits hold: C takes the difference for a huge
      time and moves, Python waits. */
  lemma {:induction false} BackwardClockParts(cfg: Cfg, s: Sel, x: real, now: int)
    requires 0 <= now < s.lastChange < U64 && 0 <= s.bucket <= 2 && !s.inFailsafe
    requires var c := BucketFor(x, s.bucket, cfg);
             && c != s.bucket && Streak(s, c) >= (if c < s.bucket then cfg.downConsecutive else cfg.upConsecutive)
             && 0.0 <= Cooldown(cfg, s, c < s.bucket) * 1000000.0 <= (now - s.lastChange + U64) as real
    ensures var c, p := Update(C, cfg, s, x, now).0, Update(Python, cfg, s, x, now).0;
            c.bucket != s.bucket && p.bucket == s.bucket
  {
    assert Since(now, s.lastChange) == now - s.lastChange + U64;
  }
}
