/** The selector of telemetry/wfb_link_score.py: its change times live in an
    unbounded deque. */
module SelectorPy {
  import opened Runs
  import opened SelectorSpec

  class Selector {
    const cfg: Cfg
    var currentBucket: int
    var currentMcs: int
    var lastChangeUs: int
    var lastDatagramUs: int
    var pendingBucket: int
    var pendingStreak: int
    var inFailsafe: bool
    var recoveryStreak: int
    var changes: seq<int>

    function View(): Sel
      reads this
    {
      Sel(currentBucket, currentMcs, lastChangeUs, lastDatagramUs, pendingBucket, pendingStreak, inFailsafe,
          recoveryStreak, changes)
    }

    constructor (cfg: Cfg)
      ensures this.cfg == cfg && View() == START
    {
      this.cfg := cfg;
      currentBucket, currentMcs := -1, -1;
      lastChangeUs, lastDatagramUs := 0, 0;
      pendingBucket, pendingStreak := -1, 0;
      inFailsafe, recoveryStreak := false, 0;
      changes := [];
    }

    method ExpireChanges(now: int)
      modifies this`changes
      ensures changes == Expire(Python, cfg, old(changes), now)
    {
      var w := Micros(cfg.window);
      if w == 0 {
        changes := [];
        return;
      }
      if now < w {
        return;
      }
      var cutoff := now - w;
      while changes != [] && changes[0] < cutoff
        invariant DropBefore(changes, cutoff) == DropBefore(old(changes), cutoff)
        decreases |changes|
      {
        changes := changes[1..];
      }
    }

    method CommitBucket(bucket: int, now: int)
      modifies this
      ensures View() == Commit(Python, cfg, old(View()), bucket, now)
    {
      var prev := currentMcs;
      currentBucket := bucket;
      currentMcs := McsFor(Python, bucket, cfg);
      if prev != currentMcs {
        lastChangeUs := now;
        changes := changes + [now];
        ExpireChanges(now);
      }
      pendingBucket, pendingStreak := -1, 0;
    }

    method TickNoData(now: int) returns (d: Decision)
      modifies this
      ensures (View(), d) == NoData(Python, cfg, old(View()), now)
    {
      ExpireChanges(now);
      if lastDatagramUs == 0 {
        return NoChange;
      }
      var gap := now - lastDatagramUs;
      if gap < Micros(cfg.failsafeTimeout) {
        return NoChange;
      }
      if inFailsafe && currentBucket == 0 {
        return NoChange;
      }
      inFailsafe, recoveryStreak := true, 0;
      CommitBucket(0, now);
      return Failsafe;
    }

    method UpdateScore(rssi: real, now: int) returns (d: Decision)
      modifies this
      ensures (View(), d) == Update(Python, cfg, old(View()), rssi, now)
    {
      lastDatagramUs := now;
      var candidate := BucketFor(rssi, currentBucket, cfg);
      if currentBucket < 0 {
        CommitBucket(candidate, now);
        return Init;
      }
      var recovered := false;
      if inFailsafe {
        if rssi >= cfg.lo + cfg.deadband {
          recoveryStreak := recoveryStreak + 1;
          if recoveryStreak >= cfg.recoveryConsecutive {
            inFailsafe, recoveryStreak, recovered := false, 0, true;
          } else {
            return NoChange;
          }
        } else {
          recoveryStreak := 0;
          return NoChange;
        }
      }
      d := Decide(candidate, now, if recovered then Recovered else NoChange);
    }

    /** What follows once the selector is out of failsafe. */
    method Decide(candidate: int, now: int, idle: Decision) returns (d: Decision)
      modifies this
      ensures (View(), d) == Consider(Python, cfg, old(View()), candidate, now, idle)
    {
      if candidate == currentBucket {
        pendingBucket, pendingStreak := -1, 0;
        return idle;
      }
      if candidate != pendingBucket {
        pendingBucket, pendingStreak := candidate, 1;
      } else {
        pendingStreak := pendingStreak + 1;
      }
      var goingDown := candidate < currentBucket;
      var required := if goingDown then cfg.downConsecutive else cfg.upConsecutive;
      if pendingStreak < required {
        return idle;
      }
      var elapsed := (now - lastChangeUs) as real;
      if goingDown {
        if elapsed < cfg.downCooldown * 1000000.0 {
          return idle;
        }
        CommitBucket(candidate, now);
        return Down;
      }
      var cooldown := cfg.upCooldown;
      if |changes| >= cfg.threshold {
        cooldown := cooldown * cfg.backoff;
      }
      if elapsed < cooldown * 1000000.0 {
        return idle;
      }
      CommitBucket(candidate, now);
      return Up;
    }
  }
}
