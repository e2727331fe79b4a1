/** The headroom ring and the controller object of
    archive/c-poc/fec_controller.c. */
module FecController {
  import opened Runs
  import opened Rings
  import opened FecControl

  class HeadroomRing {
    const tsUs: array<int>
    const size: array<int>
    var head: int
    var count: int

    ghost predicate Valid()
      reads this
    {
      && tsUs.Length == RING_MAX && size.Length == RING_MAX && tsUs != size
      && 0 <= head < RING_MAX && 0 <= count <= RING_MAX
    }

    ghost function View(): (w: Window)
      requires Valid()
      reads this, tsUs, size
      ensures |w.ts| == |w.sizes| == count
    {
      Window(RingView(tsUs[..], head, count), RingView(size[..], head, count))
    }

    constructor ()
      ensures Valid() && fresh(tsUs) && fresh(size) && View() == EMPTY
    {
      tsUs := new int[RING_MAX];
      size := new int[RING_MAX];
      head, count := 0, 0;
    }

    method RingPushFrame(now: int, bytes: int)
      requires Valid()
      modifies this, tsUs, size
      ensures Valid() && View() == Push(old(View()), now, bytes)
    {
      RingPushLast(tsUs[..], head, count, now);
      RingPushLast(size[..], head, count, bytes);
      tsUs[head] := now;
      size[head] := bytes;
      head := (head + 1) % RING_MAX;
      if count < RING_MAX {
        count := count + 1;
      }
    }

    method Oldest() returns (t: int)
      requires Valid() && count > 0
      ensures t == View().ts[0]
    {
      t := tsUs[(head - count + RING_MAX) % RING_MAX];
    }

    method DropOldest()
      requires Valid() && count > 0
      modifies this`count
      ensures Valid() && count == old(count) - 1 && View() == Window(old(View()).ts[1..], old(View()).sizes[1..])
    {
      RingPop(tsUs[..], head, count);
      RingPop(size[..], head, count);
      count := count - 1;
    }

    method ExpireBefore(cutoff: int)
      requires Valid()
      modifies this`count
      ensures Valid() && View() == Expire(old(View()), cutoff)
    {
      while count > 0
        invariant Valid() && Expire(View(), cutoff) == Expire(old(View()), cutoff)
        decreases count
      {
        var oldest := Oldest();
        if oldest >= cutoff {
          break;
        }
        ExpireOne(View(), cutoff);
        DropOldest();
      }
    }

    /** The size `i` frames before the newest. */
    method SizeBack(i: int) returns (v: int)
      requires Valid() && 0 <= i < count
      ensures v == View().sizes[count - 1 - i]
    {
      Wrap(head - 1 - i + RING_MAX, RING_MAX);
      Wrap(head - count + (count - 1 - i) + RING_MAX, RING_MAX);
      v := size[(head - 1 - i + RING_MAX) % RING_MAX];
    }

    /** The sum and the largest of the sizes, newest first. */
    method Scan() returns (sum: int, mx: int)
      requires Valid()
      ensures sum == Total(View().sizes) && mx == Biggest(View().sizes)
    {
      ghost var s := View().sizes;
      sum, mx := 0, 0;
      for i := 0 to count
        invariant sum == Total(s[count - i..]) && mx == Biggest(s[count - i..])
      {
        var v := SizeBack(i);
        assert s[count - 1 - i..] == [v] + s[count - i..];
        sum := sum + v;
        if v > mx {
          mx := v;
        }
      }
      assert s[0..] == s;
    }

    method ComputeHeadroom(cfg: Cfg) returns (ratio: real)
      requires Valid()
      ensures ratio == Headroom(cfg, View().sizes)
    {
      if count < 2 {
        return cfg.headroomMin;
      }
      var sum, mx := Scan();
      if sum <= 0 {
        return cfg.headroomMin;
      }
      ghost var s := View().sizes;
      assert |s| == count && Total(s) == sum && Biggest(s) == mx;
      ratio := Ratio(cfg, count, sum, mx);
      if ratio < cfg.headroomMin {
        ratio := cfg.headroomMin;
      }
      if ratio > cfg.headroomMax {
        ratio := cfg.headroomMax;
      }
    }
  }

  class Controller {
    const cfg: Cfg
    var avgFrameSize: real
    var haveCurrent: bool
    var current: FecSizing.Params
    var lastUpdateUs: int
    var startUs: int
    var boostUntilUs: int
    var wasBoosting: bool
    var bitrateGraceUntilUs: int
    var wasInGrace: bool
    var kDownPendingSinceUs: int
    var kDownPendingTarget: int
    var kUpPendingSinceUs: int
    var kUpPendingTarget: int

    function Now(): Ctl
      reads this
    {
      Ctl(avgFrameSize, haveCurrent, current, lastUpdateUs, startUs, boostUntilUs, wasBoosting, bitrateGraceUntilUs,
          wasInGrace, kDownPendingSinceUs, kDownPendingTarget, kUpPendingSinceUs, kUpPendingTarget)
    }

    constructor (cfg: Cfg)
      ensures this.cfg == cfg && Now() == START
    {
      this.cfg := cfg;
      avgFrameSize, haveCurrent, current := 0.0, false, NO_PARAMS;
      lastUpdateUs, startUs, boostUntilUs, wasBoosting := 0, 0, 0, false;
      bitrateGraceUntilUs, wasInGrace := 0, false;
      kDownPendingSinceUs, kDownPendingTarget, kUpPendingSinceUs, kUpPendingTarget := 0, 0, 0, 0;
    }

    method ArmSettleWindow(now: int, secs: real)
      modifies this`bitrateGraceUntilUs
      ensures Now() == ArmSettle(old(Now()), now, secs)
    {
      var newEnd := now + Micros(secs);
      if newEnd > bitrateGraceUntilUs {
        bitrateGraceUntilUs := newEnd;
      }
    }

    method ArmBoostWindow(now: int)
      modifies this`boostUntilUs
      ensures Now() == ArmBoost(cfg, old(Now()), now)
    {
      if cfg.boostSecs > 0.0 {
        boostUntilUs := now + Micros(cfg.boostSecs);
      }
    }

    method CommitParams(cand: FecSizing.Params, now: int)
      modifies this
      ensures Now() == Commit(old(Now()), cand, now).(have := old(haveCurrent))
    {
      current := cand;
      lastUpdateUs := now;
      kDownPendingSinceUs, kDownPendingTarget := 0, 0;
      kUpPendingSinceUs, kUpPendingTarget := 0, 0;
    }

    /** controller_update: `emit` says whether `current` is to be sent. */
    method UpdateFrame(frameSize: int, ring: HeadroomRing, now: int) returns (emit: bool, ghost why: Outcome)
      requires ring.Valid() && cfg.sizing.mtu > 0
      modifies this, ring, ring.tsUs, ring.size
      ensures ring.Valid() && ring.View() == Slide(cfg, old(ring.View()), frameSize, now)
      ensures (Now(), why) == Update(cfg, old(Now()), ring.View().sizes, frameSize, now)
      ensures emit == Commits(why)
    {
      ring.RingPushFrame(now, frameSize);
      ring.ExpireBefore(Since(now, Micros(cfg.headroomWindow)));
      var headroom := ring.ComputeHeadroom(cfg);
      var t := Bookkeep(headroom, frameSize, now);
      emit, why := PassGate(t, now);
    }

    /** The part of controller_update between the ring and the gate. */
    method Bookkeep(headroom: real, frameSize: int, now: int) returns (t: Tick)
      requires cfg.sizing.mtu > 0
      modifies this
      ensures (Now(), t) == Prepare(cfg, old(Now()), headroom, frameSize, now)
    {
      if startUs == 0 {
        startUs := now;
      }
      if avgFrameSize <= 0.0 {
        avgFrameSize := frameSize as real;
      } else {
        avgFrameSize := cfg.alpha * frameSize as real + (1.0 - cfg.alpha) * avgFrameSize;
      }
      assert avgFrameSize == Average(cfg, old(avgFrameSize), frameSize);
      var natural := FecSizing.Compute(cfg.sizing, avgFrameSize, headroom, if haveCurrent then current.ppf else 0);
      t := GraceAndBoost(natural, now);
    }

    /** The boost and grace windows a natural candidate meets. */
    method GraceAndBoost(natural: FecSizing.Params, now: int) returns (t: Tick)
      modifies this
      ensures (Now(), t) == Windows(cfg, old(Now()), natural, now)
    {
      var cand := natural;
      var boostActive := boostUntilUs != 0 && now < boostUntilUs;
      var boostExpiredNow := boostUntilUs != 0 && !boostActive;
      if boostExpiredNow {
        boostUntilUs := 0;
      }
      var boostEntry := boostActive && !wasBoosting;
      wasBoosting := boostActive;
      if boostActive {
        cand := FecSizing.Boosted(cfg.sizing, cand);
      }

      var inStartupGrace := Since(now, startUs) < Micros(cfg.startupGrace);
      var inSettleGrace := bitrateGraceUntilUs != 0 && now < bitrateGraceUntilUs;
      var settleJustEnded := wasInGrace && !inSettleGrace;
      wasInGrace := inSettleGrace;
      t := Tick(cand, boostEntry || boostExpiredNow, inStartupGrace || inSettleGrace, settleJustEnded);
    }

    /** The commit gate. */
    method PassGate(t: Tick, now: int) returns (emit: bool, ghost why: Outcome)
      modifies this
      ensures (Now(), why) == Gate(cfg, old(Now()), t, now) && emit == Commits(why)
    {
      var cand := t.cand;
      if !haveCurrent {
        if t.inGrace {
          return false, Suppressed;
        }
        haveCurrent := true;
        CommitParams(cand, now);
        return true, First;
      }
      if t.boostEdge {
        if cand.k == current.k && cand.n == current.n {
          return false, Suppressed;
        }
        CommitParams(cand, now);
        return true, BoostEdge;
      }
      if t.inGrace {
        return false, Suppressed;
      }
      if t.settled {
        if cand.k == current.k && cand.n == current.n {
          return false, Suppressed;
        }
        CommitParams(cand, now);
        return true, SettleEdge;
      }
      var kDelta := cand.k - current.k;
      if kDelta < 0 {
        kUpPendingSinceUs, kUpPendingTarget := 0, 0;
        if kDownPendingSinceUs == 0 {
          kDownPendingSinceUs := now;
        }
        kDownPendingTarget := cand.k;
        if Shorter(now, kDownPendingSinceUs, cfg.downDwell) {
          return false, WaitDown;
        }
        CommitParams(cand, now);
        return true, KDown;
      }
      kDownPendingSinceUs, kDownPendingTarget := 0, 0;
      if kDelta == 0 {
        kUpPendingSinceUs, kUpPendingTarget := 0, 0;
        return false, Steady;
      }
      if kUpPendingSinceUs == 0 {
        kUpPendingSinceUs := now;
      }
      kUpPendingTarget := cand.k;
      if Shorter(now, kUpPendingSinceUs, cfg.upDwell) {
        return false, WaitUp;
      }
      if kDelta < cfg.kHystUp {
        return false, WaitUp;
      }
      if Shorter(now, lastUpdateUs, cfg.cooldownUp) {
        return false, WaitUp;
      }
      CommitParams(cand, now);
      return true, KUp;
    }
  }
}
