/** The selector of archive/c-poc/mcs_selector.c: its change times live in a
    16-slot ring. */
module SelectorC {
  import opened Runs
  import opened Rings
  import opened SelectorSpec

  class Selector {
    const cfg: Cfg
    var currentBucket: int
    var currentMcs: int
    var lastChangeUs: int
    var lastDatagramUs: int
    var pendingBucket: int
    var pendingStreak: int
    var inFailsafe: bool
    var recoveryStreak: int
    const changesUs: array<int>
    var changesCount: int
    var changesHead: int

    ghost predicate Valid()
      reads this
    {
      changesUs.Length == OSC_RING && 0 <= changesHead < OSC_RING && 0 <= changesCount <= OSC_RING
    }

    ghost function Changes(): seq<int>
      requires Valid()
      reads this, changesUs
    {
      RingView(changesUs[..], changesHead, changesCount)
    }

    ghost function View(): Sel
      requires Valid()
      reads this, changesUs
    {
      Sel(currentBucket, currentMcs, lastChangeUs, lastDatagramUs, pendingBucket, pendingStreak, inFailsafe,
          recoveryStreak, Changes())
    }

    constructor (cfg: Cfg)
      ensures Valid() && fresh(changesUs) && this.cfg == cfg && View() == START
    {
      this.cfg := cfg;
      currentBucket, currentMcs := -1, -1;
      lastChangeUs, lastDatagramUs := 0, 0;
      pendingBucket, pendingStreak := -1, 0;
      inFailsafe, recoveryStreak := false, 0;
      changesUs := new int[OSC_RING];
      changesCount, changesHead := 0, 0;
    }

    method ExpireChanges(now: int)
      requires Valid()
      modifies this`changesCount
      ensures Valid() && changesCount <= old(changesCount)
      ensures Changes() == Expire(C, cfg, old(Changes()), now)
    {
      var windowUs := Micros(cfg.window);
      if windowUs == 0 || now < windowUs {
        return;
      }
      var cutoff := now - windowUs;
      while changesCount > 0
        invariant Valid() && changesCount <= old(changesCount)
        invariant DropBefore(Changes(), cutoff) == DropBefore(old(Changes()), cutoff)
        decreases changesCount
      {
        var oldest := (changesHead - changesCount + OSC_RING) % OSC_RING;
        RingPop(changesUs[..], changesHead, changesCount);
        if changesUs[oldest] >= cutoff {
          return;
        }
        changesCount := changesCount - 1;
      }
    }

    method RecordChange(now: int)
      requires Valid()
      modifies this`changesCount, this`changesHead, changesUs
      ensures Valid()
      ensures Changes() == Record(C, cfg, old(Changes()), now)
    {
      RingPushLast(changesUs[..], changesHead, changesCount, now);
      changesUs[changesHead] := now;
      changesHead := (changesHead + 1) % OSC_RING;
      if changesCount < OSC_RING {
        changesCount := changesCount + 1;
      }
      ExpireChanges(now);
    }

    method CommitBucket(bucket: int, now: int)
      requires Valid()
      modifies this, changesUs
      ensures Valid() && View() == Commit(C, cfg, old(View()), bucket, now)
    {
      var prevMcs := currentMcs;
      currentBucket := bucket;
      currentMcs := McsFor(C, bucket, cfg);
      if prevMcs != currentMcs {
        lastChangeUs := now;
        RecordChange(now);
      }
      pendingBucket, pendingStreak := -1, 0;
    }

    method TickNoData(now: int) returns (d: Decision)
      requires Valid()
      modifies this, changesUs
      ensures Valid() && (View(), d) == NoData(C, cfg, old(View()), now)
    {
      ExpireChanges(now);
      if lastDatagramUs == 0 {
        return NoChange;
      }
      var gap := Elapsed(C, now, lastDatagramUs);
      if gap < Micros(cfg.failsafeTimeout) {
        return NoChange;
      }
      if inFailsafe && currentBucket == 0 {
        return NoChange;
      }
      inFailsafe, recoveryStreak := true, 0;
      CommitBucket(0, now);
      return Failsafe;
    }

    method UpdateScore(rssi: real, now: int) returns (d: Decision)
      requires Valid()
      modifies this, changesUs
      ensures Valid() && (View(), d) == Update(C, cfg, old(View()), rssi, now)
    {
      lastDatagramUs := now;
      var candidate := BucketFor(rssi, currentBucket, cfg);
      if currentBucket < 0 {
        CommitBucket(candidate, now);
        return Init;
      }
      if inFailsafe {
        if rssi >= cfg.lo + cfg.deadband {
          recoveryStreak := recoveryStreak + 1;
          if recoveryStreak >= cfg.recoveryConsecutive {
            inFailsafe, recoveryStreak := false, 0;
          } else {
            return NoChange;
          }
        } else {
          recoveryStreak := 0;
          return NoChange;
        }
      }
      d := Decide(candidate, now);
    }

    /** What follows once the selector is out of failsafe. */
    method Decide(candidate: int, now: int) returns (d: Decision)
      requires Valid()
      modifies this, changesUs
      ensures Valid() && (View(), d) == Consider(C, cfg, old(View()), candidate, now, NoChange)
    {
      if candidate == currentBucket {
        pendingBucket, pendingStreak := -1, 0;
        return NoChange;
      }
      if candidate != pendingBucket {
        pendingBucket, pendingStreak := candidate, 1;
      } else {
        pendingStreak := pendingStreak + 1;
      }
      var goingDown := candidate < currentBucket;
      var required := if goingDown then cfg.downConsecutive else cfg.upConsecutive;
      if pendingStreak < required {
        return NoChange;
      }
      var elapsed := Elapsed(C, now, lastChangeUs) as real;
      if goingDown {
        if elapsed < cfg.downCooldown * 1000000.0 {
          return NoChange;
        }
        CommitBucket(candidate, now);
        return Down;
      }
      var cooldown := cfg.upCooldown;
      if changesCount >= cfg.threshold {
        cooldown := cooldown * cfg.backoff;
      }
      if elapsed < cooldown * 1000000.0 {
        return NoChange;
      }
      CommitBucket(candidate, now);
      return Up;
    }
  }
}
