/** When the vehicle hops, measured on the ground's clock (microseconds). The
    vehicle reads the same time shifted by a constant, in whole milliseconds. */
module CsaTiming {
  import opened CsaText
  import opened CsaFrame
  import opened CsaVehicle
  import opened CsaGround

  function LocalMs(t: int, off: int): int {
    (t + off) / 1000
  }

  /** The vehicle's deadline for a frame printed at `g` and received at `a`:
      two roundings make it at most 2 ms early, and the flight delays it. */
  lemma {:induction false} SwitchBounds(tSwitch: int, g: int, a: int, off: int, x: int)
    requires g < tSwitch && g <= a
    ensures var s := LocalMs(a, off) + Dt(tSwitch, g);
            && 1000 * s - off > tSwitch - 2000
            && (LocalMs(x, off) >= s ==> x > tSwitch - 2000)
            && (x >= tSwitch + (a - g) ==> LocalMs(x, off) >= s)
  {
  }

  /** Event `k` of a vehicle run happens at `ts[k]`. */
  predicate Timed(es: Run, ts: seq<int>, off: int) {
    && |ts| == |es|
    && (forall k :: 0 <= k < |es| ==> es[k].at == LocalMs(ts[k], off))
    && (forall j, k :: 0 <= j < k < |es| ==> ts[j] <= ts[k])
  }

  /** From event `i` to `k` the vehicle is armed as frame `c` of event `i` said. */
  predicate ArmedThrough(cfg: Cfg, es: Run, i: nat, c: Commit, k: nat)
    requires i < |es| && k <= |es|
  {
    forall m :: i < m <= k ==> Before(cfg, es, m) == ArmedBy(c, es[i].at, Before(cfg, es, i).lastSwitch)
  }

  /** An armed session stays as it is, deadline included, exactly as long as the
      vehicle does not hop and no newer session starts. */
  lemma {:induction false} ArmedThroughIff(cfg: Cfg, es: Run, i: nat, c: Commit, k: nat)
    requires i < k <= |es| && ArmsAt(cfg, es, i, c)
    ensures ArmedThrough(cfg, es, i, c, k) <==> NoHop(cfg, es, i, k) && NoArm(cfg, es, i, k)
    decreases k
  {
    if k > i + 1 {
      ArmedThroughIff(cfg, es, i, c, k - 1);
      if ArmedThrough(cfg, es, i, c, k - 1) {
        ArmedStepIff(cfg, es, i, c, k - 1);
      }
    }
  }

  lemma {:induction false} ArmedStepIff(cfg: Cfg, es: Run, i: nat, c: Commit, k: nat)
    requires i < k < |es| && Before(cfg, es, k) == ArmedBy(c, es[i].at, Before(cfg, es, i).lastSwitch)
    ensures Before(cfg, es, k + 1) == Before(cfg, es, k) <==> HopAt(cfg, es, k) == None && !Arms(cfg, es, k)
  {
  }

  predicate HopsAt(cfg: Cfg, es: Run, i: nat, c: Commit, k: nat)
    requires i < |es|
  {
    i < k < |es| && HopAt(cfg, es, k) == Some(Hop(c.targetChan, c.targetHt)) && ArmedThrough(cfg, es, i, c, k)
  }

  /** Until the hop nothing moves the deadline of an armed session but a newer
      session. */
  lemma {:induction false} ArmedUntilHop(cfg: Cfg, es: Run, i: nat, c: Commit, h: nat)
    requires i < h <= |es| && ArmsAt(cfg, es, i, c)
    requires forall m :: i < m < h && FrameOf(es[m]).Some? ==> FrameOf(es[m]).value.sess <= c.sess
    ensures ArmedThrough(cfg, es, i, c, h) || exists k: nat :: k < h && HopsAt(cfg, es, i, c, k)
    decreases h
  {
    if h > i + 1 {
      ArmedUntilHop(cfg, es, i, c, h - 1);
      var e := es[h - 1];
      assert FrameOf(e).Some? ==> FrameOf(e).value.sess <= c.sess;
      if ArmedThrough(cfg, es, i, c, h - 1) && HopAt(cfg, es, h - 1).Some? {
        assert HopsAt(cfg, es, i, c, h - 1);
      } else if ArmedThrough(cfg, es, i, c, h - 1) {
        var s := Before(cfg, es, h - 1);
        assert s == ArmedBy(c, es[i].at, Before(cfg, es, i).lastSwitch);
        assert Next(s, cfg, e) == s;
      }
    }
  }

  lemma {:induction false} HopIsDue(cfg: Cfg, es: Run, i: nat, c: Commit, k: nat)
    requires i < |es| && HopsAt(cfg, es, i, c, k)
    ensures es[k].at >= es[i].at + c.dt
  {
    assert i < k <= k;
    var s := Before(cfg, es, k);
    assert s == ArmedBy(c, es[i].at, Before(cfg, es, i).lastSwitch);
  }

  /** With flight times up to `delay` and a vehicle tick in every `period`,
      whichever frame printed before the switch is the first accepted: the
      vehicle hops within (tSwitch - 2 ms, tSwitch + delay + period], and no
      later frame of that or an older session moves it. */
  lemma {:induction false} HopTiming(cfg: Cfg, es: Run, ts: seq<int>, off: int, i: nat, c: Commit, h: nat,
                                     tSwitch: int, printed: int, delay: nat, period: nat)
    requires Timed(es, ts, off) && i < h < |es| && ArmsAt(cfg, es, i, c)
    requires c.dt == Dt(tSwitch, printed) && printed < tSwitch && printed <= ts[i] <= printed + delay
    requires forall m :: i < m < |es| && FrameOf(es[m]).Some? ==> FrameOf(es[m]).value.sess <= c.sess
    requires es[h].Tick? && tSwitch + delay <= ts[h] <= tSwitch + delay + period
    ensures exists k: nat :: k <= h && HopsAt(cfg, es, i, c, k) && tSwitch - 2000 < ts[k] <= tSwitch + delay + period
  {
    ArmedUntilHop(cfg, es, i, c, h);
    SwitchBounds(tSwitch, printed, ts[i], off, ts[h]);
    assert es[i].at == LocalMs(ts[i], off);
    if ArmedThrough(cfg, es, i, c, h) {
      assert Before(cfg, es, h).tSwitch == es[i].at + c.dt;
      assert HopsAt(cfg, es, i, c, h);
    }
    var k: nat :| k <= h && HopsAt(cfg, es, i, c, k);
    HopIsDue(cfg, es, i, c, k);
    SwitchBounds(tSwitch, printed, ts[i], off, ts[k]);
  }
}
