/** The selector with the 16-slot ring and the one with the unbounded deque go
    through the same states. */
module SelectorRefinement {
  import opened Runs
  import opened Rings
  import opened SelectorSpec

  /** Where the two are meant to agree. */
  predicate Comparable(cfg: Cfg) {
    cfg.threshold <= OSC_RING && Micros(cfg.window) != 0 && cfg.mcsMin <= cfg.mcsMax
  }

  predicate Sorted(t: seq<int>, now: int) {
    && (forall i, j :: 0 <= i < j < |t| ==> t[i] <= t[j])
    && (forall i :: 0 <= i < |t| ==> t[i] <= now)
  }

  /** The ring holds the last 16 entries of the deque. */
  predicate SameBut(c: Sel, p: Sel) {
    c == p.(changes := LastOf(p.changes, OSC_RING))
  }

  predicate Related(c: Sel, p: Sel, now: int) {
    SameBut(c, p) && Sorted(p.changes, now) && 0 <= p.lastChange <= now && 0 <= p.lastData <= now
  }

  /** Expiry drops a prefix. */
  lemma {:induction false} DropIsSuffix(t: seq<int>, cutoff: int) returns (k: nat)
    ensures k <= |t| && DropBefore(t, cutoff) == t[k..]
    ensures forall i :: 0 <= i < k ==> t[i] < cutoff
    ensures k < |t| ==> t[k] >= cutoff
  {
    if t != [] && t[0] < cutoff {
      var j := DropIsSuffix(t[1..], cutoff);
      k := j + 1;
      assert t[1..][j..] == t[k..];
      forall i | 0 <= i < k ensures t[i] < cutoff {
        if i > 0 {
          assert t[1..][i - 1] < cutoff;
        }
      }
    } else {
      k := 0;
    }
  }

  lemma {:induction false} DropUnique(t: seq<int>, cutoff: int, k: nat)
    requires k <= |t| && (forall i :: 0 <= i < k ==> t[i] < cutoff) && (k < |t| ==> t[k] >= cutoff)
    ensures DropBefore(t, cutoff) == t[k..]
  {
    var j := DropIsSuffix(t, cutoff);
    assert k == j;
  }

  /** Expiring the last 16 gives the last 16 of the expired. */
  lemma {:induction false} DropCommutes(t: seq<int>, cutoff: int, now: int)
    requires Sorted(t, now)
    ensures DropBefore(LastOf(t, OSC_RING), cutoff) == LastOf(DropBefore(t, cutoff), OSC_RING)
    ensures Sorted(DropBefore(t, cutoff), now)
  {
    var k := DropIsSuffix(t, cutoff);
    var cut := if |t| <= OSC_RING then 0 else |t| - OSC_RING;
    LastOfSuffix(t, cut, k);
    SuffixSorted(t, k, now);
    DropUnique(t[cut..], cutoff, if k <= cut then 0 else k - cut);
  }

  lemma {:induction false} LastOfSuffix(t: seq<int>, cut: nat, k: nat)
    requires k <= |t| && cut == if |t| <= OSC_RING then 0 else |t| - OSC_RING
    ensures LastOf(t, OSC_RING) == t[cut..]
    ensures LastOf(t[k..], OSC_RING) == if k <= cut then t[cut..] else t[k..]
    ensures k > cut ==> t[cut..][k - cut..] == t[k..]
  {
  }

  lemma {:induction false} SuffixSorted(t: seq<int>, k: nat, now: int)
    requires k <= |t| && Sorted(t, now)
    ensures Sorted(t[k..], now)
  {
  }

  lemma {:induction false} ExpireCommutes(cfg: Cfg, t: seq<int>, now: int)
    requires Comparable(cfg) && Sorted(t, now)
    ensures Expire(C, cfg, LastOf(t, OSC_RING), now) == LastOf(Expire(Python, cfg, t, now), OSC_RING)
    ensures Sorted(Expire(Python, cfg, t, now), now)
  {
    DropCommutes(t, now - Micros(cfg.window), now);
  }

  lemma {:induction false} RecordCommutes(cfg: Cfg, t: seq<int>, now: int)
    requires Comparable(cfg) && Sorted(t, now)
    ensures Record(C, cfg, LastOf(t, OSC_RING), now) == LastOf(Record(Python, cfg, t, now), OSC_RING)
    ensures Sorted(Record(Python, cfg, t, now), now)
  {
    LastOfTwice(t, now);
    ExpireCommutes(cfg, t + [now], now);
  }

  lemma {:induction false} LastOfTwice(t: seq<int>, x: int)
    ensures LastOf(LastOf(t, OSC_RING) + [x], OSC_RING) == LastOf(t + [x], OSC_RING)
  {
  }

  lemma {:induction false} CommitRelated(cfg: Cfg, c: Sel, p: Sel, bucket: int, now: int)
    requires Comparable(cfg) && Related(c, p, now)
    ensures Related(Commit(C, cfg, c, bucket, now), Commit(Python, cfg, p, bucket, now), now)
  {
    ClampsAgreeIff(bucket, cfg);
    RecordCommutes(cfg, p.changes, now);
  }

  lemma {:induction false} ConsiderRelated(cfg: Cfg, c: Sel, p: Sel, candidate: int, now: int, i: Decision, j: Decision)
    requires Comparable(cfg) && Related(c, p, now) && now < U64
    ensures var (x, d), (y, e) := Consider(C, cfg, c, candidate, now, i), Consider(Python, cfg, p, candidate, now, j);
            Related(x, y, now) && (d == e || (d == i && e == j))
  {
    var t, u := c.(pending := candidate, streak := Streak(c, candidate)),
                p.(pending := candidate, streak := Streak(p, candidate));
    CommitRelated(cfg, t, u, candidate, now);
    SameWaits(cfg, c, p, now);
  }

  lemma {:induction false} SameWaits(cfg: Cfg, c: Sel, p: Sel, now: int)
    requires Comparable(cfg) && Related(c, p, now) && now < U64
    ensures Elapsed(C, now, c.lastChange) == Elapsed(Python, now, p.lastChange)
    ensures forall down :: Cooldown(cfg, c, down) == Cooldown(cfg, p, down)
  {
  }

  lemma {:induction false} UpdateRelated(cfg: Cfg, c: Sel, p: Sel, rssi: real, now: int)
    requires Comparable(cfg) && Related(c, p, now) && now < U64
    ensures var (x, d), (y, e) := Update(C, cfg, c, rssi, now), Update(Python, cfg, p, rssi, now);
            Related(x, y, now) && (d == e || (d == NoChange && e == Recovered))
  {
    var candidate := BucketFor(rssi, p.bucket, cfg);
    var c1, p1 := c.(lastData := now), p.(lastData := now);
    if p.bucket < 0 {
      CommitRelated(cfg, c1, p1, candidate, now);
    } else if !p.inFailsafe {
      ConsiderRelated(cfg, c1, p1, candidate, now, NoChange, NoChange);
    } else {
      ConsiderRelated(cfg, c1.(inFailsafe := false, recovery := 0), p1.(inFailsafe := false, recovery := 0),
                      candidate, now, NoChange, Recovered);
    }
  }

  lemma {:induction false} NoDataRelated(cfg: Cfg, c: Sel, p: Sel, now: int)
    requires Comparable(cfg) && Related(c, p, now) && now < U64
    ensures var (x, d), (y, e) := NoData(C, cfg, c, now), NoData(Python, cfg, p, now); Related(x, y, now) && d == e
  {
    ExpireCommutes(cfg, p.changes, now);
    var c1 := c.(changes := Expire(C, cfg, c.changes, now));
    var p1 := p.(changes := Expire(Python, cfg, p.changes, now));
    CommitRelated(cfg, c1.(inFailsafe := true, recovery := 0), p1.(inFailsafe := true, recovery := 0), 0, now);
  }

  lemma {:induction false} Later(c: Sel, p: Sel, now: int, after: int)
    requires Related(c, p, now) && now <= after
    ensures Related(c, p, after)
  {
  }

  /** On every run of samples and watchdog ticks the two selectors agree on
      bucket, MCS, streaks, failsafe and oscillation; the ring is the tail of the
      deque, and they report the same but for Python's "recovered". */
  lemma {:induction false} RingRefinesDeque(cfg: Cfg, run: Run)
    requires Comparable(cfg) && Clocked(run)
    ensures Related(After(C, cfg, run), After(Python, cfg, run), ClockOf(run)) && ClockOf(run) >= 0
    ensures Oscillating(cfg, After(C, cfg, run).changes) <==> Oscillating(cfg, After(Python, cfg, run).changes)
    ensures run != [] ==>
              var d, e := Next(C, cfg, After(C, cfg, Front(run)), Last(run)).1,
                          Next(Python, cfg, After(Python, cfg, Front(run)), Last(run)).1;
              d == e || (d == NoChange && e == Recovered)
  {
    if run != [] {
      RingRefinesDeque(cfg, Front(run));
      var c, p, now := After(C, cfg, Front(run)), After(Python, cfg, Front(run)), Last(run).now;
      Later(c, p, ClockOf(Front(run)), now);
      match Last(run)
      case Sample(_, rssi) => UpdateRelated(cfg, c, p, rssi, now);
      case Quiet(_) => NoDataRelated(cfg, c, p, now);
    }
  }
}
