/** What the selector does do, for either implementation: the hysteresis in its
    thresholds, exactly when samples move the bucket, when the watchdog trips and
    when failsafe ends, and which MCS comes out. */
module SelectorResponse {
  import opened Runs
  import opened SelectorSpec
  import opened SelectorBounds
  import opened SelectorRefinement

  // ---- Hysteresis

  /** Thresholds in order, and no negative deadband. */
  predicate Thresholds(cfg: Cfg) {
    cfg.deadband >= 0.0 && cfg.lo <= cfg.hi
  }

  /** x lies in the band of bucket `b` widened by the deadband. */
  predicate InBand(cfg: Cfg, b: int, x: real) {
    (b > 0 ==> x >= (if b == 1 then cfg.lo else cfg.hi) - cfg.deadband)
    && (b < 2 ==> x < (if b == 0 then cfg.lo else cfg.hi) + cfg.deadband)
  }

  /** x lies in the band of bucket `c` narrowed by the deadband. */
  predicate Firmly(cfg: Cfg, c: int, x: real) {
    (c > 0 ==> x >= (if c == 1 then cfg.lo else cfg.hi) + cfg.deadband)
    && (c < 2 ==> x < (if c == 0 then cfg.lo else cfg.hi) - cfg.deadband)
  }

  /** From every bucket: it stays if and only if x is in its own widened band; x
      firmly in a band leads there; and the outer buckets are reached from
      elsewhere only beyond the deadband. The first sample has no deadband. */
  lemma {:induction false} Hysteresis(cfg: Cfg, b: int, x: real)
    requires Thresholds(cfg) && b <= 2
    ensures 0 <= b ==> (BucketFor(x, b, cfg) == b <==> InBand(cfg, b, x))
    ensures 0 <= b ==> forall c :: 0 <= c <= 2 && Firmly(cfg, c, x) ==> BucketFor(x, b, cfg) == c
    ensures 0 <= b < 2 ==> (BucketFor(x, b, cfg) == 2 <==> x >= cfg.hi + cfg.deadband)
    ensures 0 < b <= 2 ==> (BucketFor(x, b, cfg) == 0 <==> x < cfg.lo - cfg.deadband)
    ensures b < 0 ==> BucketFor(x, b, cfg) == if x < cfg.lo then 0 else if x < cfg.hi then 1 else 2
  {
  }

  // ---- Exactly when samples move the bucket

  /** Samples firmly in band `c`, in time order from `from` on. */
  predicate Steadily(cfg: Cfg, c: int, xs: Run, from: int) {
    xs != [] ==>
      && Steadily(cfg, c, Front(xs), from)
      && Last(xs).Sample? && Firmly(cfg, c, Last(xs).rssi)
      && (if Front(xs) == [] then from else Last(Front(xs)).now) <= Last(xs).now < U64
  }

  function AfterFrom(impl: Impl, cfg: Cfg, s: Sel, xs: Run): Sel {
    if xs == [] then s else Next(impl, cfg, AfterFrom(impl, cfg, s, Front(xs)), Last(xs)).0
  }

  /** How many samples have asked for `c` already. */
  function Asked(s: Sel, c: int): int {
    if s.pending == c then s.streak else 0
  }

  /** Enough samples for the direction. */
  function Needed(cfg: Cfg, b: int, c: int): int {
    if c < b then cfg.downConsecutive else cfg.upConsecutive
  }

  /** Microseconds since the last change, with the backoff of an oscillating
      selector on the way up. */
  function Wait(cfg: Cfg, s: Sel, c: int): real {
    (if c < s.bucket then cfg.downCooldown
     else if |s.changes| >= cfg.threshold then cfg.upCooldown * cfg.backoff
     else cfg.upCooldown) * 1000000.0
  }

  /** Sample `i` is the first that may move the bucket, or a later one. */
  predicate Ripe(cfg: Cfg, s: Sel, c: int, xs: Run, i: nat)
    requires i < |xs|
  {
    Asked(s, c) + i + 1 >= Needed(cfg, s.bucket, c) && (xs[i].now - s.lastChange) as real >= Wait(cfg, s, c)
  }

  /** While nothing has moved, the streak counts the samples. */
  predicate Counting(s: Sel, t: Sel, c: int, n: nat) {
    && t.bucket == s.bucket && !t.inFailsafe && t.lastChange == s.lastChange && t.changes == s.changes
    && Asked(t, c) == Asked(s, c) + n
  }

  predicate Arrived(t: Sel, c: int) {
    t.bucket == c && !t.inFailsafe
  }

  lemma {:induction false} SampleOn(impl: Impl, cfg: Cfg, s: Sel, t: Sel, c: int, n: nat, x: real, now: int)
    requires Thresholds(cfg) && 0 <= s.bucket <= 2 && 0 <= c <= 2 && c != s.bucket
    requires Counting(s, t, c, n) && Firmly(cfg, c, x) && 0 <= s.lastChange <= now < U64
    ensures var u := Update(impl, cfg, t, x, now).0;
            if Asked(s, c) + n + 1 >= Needed(cfg, s.bucket, c) && (now - s.lastChange) as real >= Wait(cfg, s, c)
            then Arrived(u, c) else Counting(s, u, c, n + 1)
  {
    Hysteresis(cfg, s.bucket, x);
    assert Elapsed(impl, now, s.lastChange) == now - s.lastChange;
  }

  lemma {:induction false} StaysThere(impl: Impl, cfg: Cfg, t: Sel, c: int, x: real, now: int)
    requires Thresholds(cfg) && 0 <= c <= 2 && Arrived(t, c) && Firmly(cfg, c, x)
    ensures Arrived(Update(impl, cfg, t, x, now).0, c)
  {
    Hysteresis(cfg, c, x);
  }

  /** Outside failsafe, samples firmly in one band bring the bucket there if and
      only if one of them comes after enough of them and after the cooldown; until
      then it does not move. */
  lemma {:induction false} MovesIff(impl: Impl, cfg: Cfg, s: Sel, c: int, xs: Run)
    requires Thresholds(cfg) && 0 <= s.bucket <= 2 && 0 <= c <= 2 && c != s.bucket && !s.inFailsafe
    requires 0 <= s.lastChange && Steadily(cfg, c, xs, s.lastChange)
    ensures var t := AfterFrom(impl, cfg, s, xs);
            if exists i :: 0 <= i < |xs| && Ripe(cfg, s, c, xs, i) then Arrived(t, c) else Counting(s, t, c, |xs|)
  {
    if xs != [] {
      var before, now := Front(xs), Last(xs).now;
      MovesIff(impl, cfg, s, c, before);
      InOrder(cfg, c, xs, s.lastChange);
      var t := AfterFrom(impl, cfg, s, before);
      if i :| 0 <= i < |before| && Ripe(cfg, s, c, before, i) {
        assert Ripe(cfg, s, c, xs, i);
        StaysThere(impl, cfg, t, c, Last(xs).rssi, now);
      } else {
        SampleOn(impl, cfg, s, t, c, |before|, Last(xs).rssi, now);
        if i :| 0 <= i < |xs| && Ripe(cfg, s, c, xs, i) {
          assert i < |before| ==> Ripe(cfg, s, c, before, i);
        }
        assert Ripe(cfg, s, c, xs, |before|) <==>
                 Asked(s, c) + |before| + 1 >= Needed(cfg, s.bucket, c) && (now - s.lastChange) as real >= Wait(cfg, s, c);
      }
    }
  }

  lemma {:induction false} InOrder(cfg: Cfg, c: int, xs: Run, from: int)
    requires Steadily(cfg, c, xs, from)
    ensures xs != [] ==> from <= Last(xs).now
  {
    if xs != [] {
      InOrder(cfg, c, Front(xs), from);
    }
  }

  lemma {:induction false} AfterConcat(impl: Impl, cfg: Cfg, run: Run, xs: Run)
    ensures After(impl, cfg, run + xs) == AfterFrom(impl, cfg, After(impl, cfg, run), xs)
  {
    if xs == [] {
      assert run + xs == run;
    } else {
      assert Front(run + xs) == run + Front(xs) && Last(run + xs) == Last(xs);
      AfterConcat(impl, cfg, run, Front(xs));
    }
  }

  /** For every run: what the samples after it do, as above. */
  lemma {:induction false} SamplesMoveIff(impl: Impl, cfg: Cfg, run: Run, c: int, xs: Run)
    requires Thresholds(cfg) && Clocked(run) && 0 <= c <= 2 && Steadily(cfg, c, xs, ClockOf(run))
    requires var s := After(impl, cfg, run); 0 <= s.bucket && c != s.bucket && !s.inFailsafe
    ensures var s, t := After(impl, cfg, run), After(impl, cfg, run + xs);
            if exists i :: 0 <= i < |xs| && Ripe(cfg, s, c, xs, i) then t.bucket == c else t.bucket == s.bucket
  {
    Unseen(impl, cfg, run);
    ChangeIsPast(impl, cfg, run);
    Earlier(cfg, c, xs, ClockOf(run), After(impl, cfg, run).lastChange);
    MovesIff(impl, cfg, After(impl, cfg, run), c, xs);
    AfterConcat(impl, cfg, run, xs);
  }

  lemma {:induction false} Earlier(cfg: Cfg, c: int, xs: Run, from: int, since: int)
    requires Steadily(cfg, c, xs, from) && since <= from
    ensures Steadily(cfg, c, xs, since)
  {
    if xs != [] {
      Earlier(cfg, c, Front(xs), from, since);
    }
  }

  /** The time of the latest MCS change; 0 when there was none. */
  function ChangedAt(impl: Impl, cfg: Cfg, run: Run): int {
    if run == [] then 0
    else if After(impl, cfg, run).mcs != After(impl, cfg, Front(run)).mcs then Last(run).now
    else ChangedAt(impl, cfg, Front(run))
  }

  /** `lastChange` is that time. */
  lemma {:induction false} ChangeIsPast(impl: Impl, cfg: Cfg, run: Run)
    requires Clocked(run)
    ensures After(impl, cfg, run).lastChange == ChangedAt(impl, cfg, run) && 0 <= ChangedAt(impl, cfg, run) <= ClockOf(run)
  {
    if run != [] {
      ChangeIsPast(impl, cfg, Front(run));
      Unseen(impl, cfg, Front(run));
      EventMoves(impl, cfg, After(impl, cfg, Front(run)), Last(run));
    }
  }

  /** Something is counted exactly when something is pending. */
  lemma {:induction false} NothingPending(impl: Impl, cfg: Cfg, run: Run)
    ensures var s := After(impl, cfg, run); s.streak >= 0 && (s.pending == -1 <==> s.streak == 0)
  {
    if run != [] {
      NothingPending(impl, cfg, Front(run));
      PendingStep(impl, cfg, After(impl, cfg, Front(run)), Last(run));
    }
  }

  lemma {:induction false} PendingStep(impl: Impl, cfg: Cfg, s: Sel, e: Event)
    requires s.streak >= 0 && (s.pending == -1 <==> s.streak == 0)
    ensures var t := Next(impl, cfg, s, e).0; t.streak >= 0 && (t.pending == -1 <==> t.streak == 0)
  {
  }

  // ---- Failsafe

  /** The time of the latest sample; 0 when there was none. */
  function SampledAt(run: Run): int {
    if run == [] then 0 else if Last(run).Sample? then Last(run).now else SampledAt(Front(run))
  }

  /** A watchdog run trips if and only if there was a sample, the latest is the
      timeout old, and the selector is not already down. */
  predicate Trips(impl: Impl, cfg: Cfg, run: Run)
    requires run != []
  {
    var s := After(impl, cfg, Front(run));
    Last(run).Quiet? && SampledAt(Front(run)) != 0 && Last(run).now - SampledAt(Front(run)) >= Micros(cfg.failsafeTimeout)
    && !(s.inFailsafe && s.bucket == 0)
  }

  lemma {:induction false} TripsIff(impl: Impl, cfg: Cfg, run: Run)
    requires Clocked(run) && run != []
    ensures Next(impl, cfg, After(impl, cfg, Front(run)), Last(run)).1 == Failsafe <==> Trips(impl, cfg, run)
  {
    SampledIs(impl, cfg, Front(run));
    Unseen(impl, cfg, Front(run));
    EventMoves(impl, cfg, After(impl, cfg, Front(run)), Last(run));
    if Last(run).Quiet? {
      assert Elapsed(impl, Last(run).now, SampledAt(Front(run))) == Last(run).now - SampledAt(Front(run));
    }
  }

  lemma {:induction false} SampledIs(impl: Impl, cfg: Cfg, run: Run)
    requires Clocked(run)
    ensures After(impl, cfg, run).lastData == SampledAt(run) && 0 <= SampledAt(run) <= ClockOf(run)
  {
    if run != [] {
      SampledIs(impl, cfg, Front(run));
      Unseen(impl, cfg, Front(run));
      EventMoves(impl, cfg, After(impl, cfg, Front(run)), Last(run));
    }
  }

  /** Good samples in a row since the latest trip. */
  function Good(impl: Impl, cfg: Cfg, run: Run): nat {
    if run == [] || Trips(impl, cfg, run) then 0
    else
      match Last(run)
      case Quiet(_) => Good(impl, cfg, Front(run))
      case Sample(_, x) => if x < cfg.lo + cfg.deadband then 0 else Good(impl, cfg, Front(run)) + 1
  }

  /** In failsafe: from a trip until enough good samples came in a row. */
  predicate Down(impl: Impl, cfg: Cfg, run: Run) {
    run != []
    && (Trips(impl, cfg, run)
        || (Down(impl, cfg, Front(run))
            && !(Last(run).Sample? && Last(run).rssi >= cfg.lo + cfg.deadband
                 && Good(impl, cfg, run) >= cfg.recoveryConsecutive)))
  }

  lemma {:induction false} FailsafeIff(impl: Impl, cfg: Cfg, run: Run)
    requires Clocked(run)
    ensures var s := After(impl, cfg, run);
            && (s.inFailsafe <==> Down(impl, cfg, run))
            && (if s.inFailsafe then s.bucket == 0 && s.recovery == Good(impl, cfg, run) else s.recovery == 0)
  {
    if run != [] {
      FailsafeIff(impl, cfg, Front(run));
      TripsIff(impl, cfg, run);
      FailsafeIsLow(impl, cfg, run);
      Unseen(impl, cfg, Front(run));
      FailsafeStep(impl, cfg, After(impl, cfg, Front(run)), Last(run));
    }
  }

  lemma {:induction false} FailsafeStep(impl: Impl, cfg: Cfg, s: Sel, e: Event)
    requires s.bucket <= 2
    ensures var (t, d) := Next(impl, cfg, s, e);
            && (d == Failsafe ==> t.inFailsafe && t.recovery == 0)
            && (d != Failsafe && e.Quiet? ==> t.inFailsafe == s.inFailsafe && t.recovery == s.recovery)
            && (e.Sample? && !s.inFailsafe ==> !t.inFailsafe && t.recovery == s.recovery)
            && (s.inFailsafe && !t.inFailsafe ==> t.recovery == 0)
  {
  }

  // ---- The MCS

  /** `m` kept within the limits. */
  predicate IsClamped(cfg: Cfg, mcs: int, m: int) {
    && cfg.mcsMin <= mcs <= cfg.mcsMax
    && (cfg.mcsMin <= m <= cfg.mcsMax ==> mcs == m) && (m < cfg.mcsMin ==> mcs == cfg.mcsMin) && (m > cfg.mcsMax ==> mcs == cfg.mcsMax)
  }

  /** After the first sample the MCS is the bucket's, kept within the limits. */
  lemma {:induction false} McsOfBucket(impl: Impl, cfg: Cfg, run: Run)
    requires cfg.mcsMin <= cfg.mcsMax && SampledAt(run) != 0
    ensures var s := After(impl, cfg, run);
            && 0 <= s.bucket <= 2
            && IsClamped(cfg, s.mcs, if s.bucket == 0 then cfg.mcs0 else if s.bucket == 1 then cfg.mcs1 else cfg.mcs2)
  {
    MappedMcs(impl, cfg, run);
  }

  lemma {:induction false} MappedMcs(impl: Impl, cfg: Cfg, run: Run)
    ensures var s := After(impl, cfg, run);
            && -1 <= s.bucket <= 2 && (SampledAt(run) != 0 ==> s.bucket >= 0)
            && (s.bucket >= 0 ==> s.mcs == McsFor(impl, s.bucket, cfg))
  {
    if run != [] {
      MappedMcs(impl, cfg, Front(run));
      EventMoves(impl, cfg, After(impl, cfg, Front(run)), Last(run));
      Unseen(impl, cfg, run);
    }
  }

  // ---- The change times

  predicate Changed(impl: Impl, cfg: Cfg, run: Run)
    requires run != []
  {
    After(impl, cfg, run).mcs != After(impl, cfg, Front(run)).mcs
  }

  /** The times of all MCS changes. */
  function ChangeTimes(impl: Impl, cfg: Cfg, run: Run): seq<int> {
    if run == [] then [] else ChangeTimes(impl, cfg, Front(run)) + if Changed(impl, cfg, run) then [Last(run).now] else []
  }

  /** When old changes were forgotten last: at a change or a watchdog run. */
  function ForgotAt(impl: Impl, cfg: Cfg, run: Run): int {
    if run == [] then 0
    else if Last(run).Quiet? || Changed(impl, cfg, run) then Last(run).now
    else ForgotAt(impl, cfg, Front(run))
  }

  /** Position `k` divides the times before `cutoff` from the others. */
  predicate Divides(times: seq<int>, k: int, cutoff: int) {
    && 0 <= k <= |times|
    && (forall i :: 0 <= i < k ==> times[i] < cutoff) && (forall i :: k <= i < |times| ==> times[i] >= cutoff)
  }

  /** `kept` is what of `times` is not before `cutoff`. */
  ghost predicate KeptFrom(kept: seq<int>, times: seq<int>, cutoff: int) {
    exists k :: Divides(times, k, cutoff) && kept == times[k..]
  }

  lemma {:induction false} DropKeeps(kept: seq<int>, times: seq<int>, cutoff: int, later: int, now: int)
    requires KeptFrom(kept, times, cutoff) && cutoff <= later && Sorted(times, now)
    ensures KeptFrom(DropBefore(kept, later), times, later)
  {
    var k :| Divides(times, k, cutoff) && kept == times[k..];
    var j := DropIsSuffix(kept, later);
    assert kept[j..] == times[k + j..];
    assert forall i :: k <= i < |times| ==> times[i] == kept[i - k];
    DividesLater(times, k, j, cutoff, later, now);
  }

  lemma {:induction false} DividesLater(times: seq<int>, k: int, j: nat, cutoff: int, later: int, now: int)
    requires Divides(times, k, cutoff) && cutoff <= later && Sorted(times, now) && k + j <= |times|
    requires forall i :: k <= i < k + j ==> times[i] < later
    requires k + j < |times| ==> times[k + j] >= later
    ensures Divides(times, k + j, later)
  {
    forall i | k + j <= i < |times| ensures times[i] >= later {
      assert k + j == i || times[k + j] <= times[i];
    }
  }

  lemma {:induction false} KeptAppend(kept: seq<int>, times: seq<int>, cutoff: int, now: int)
    requires KeptFrom(kept, times, cutoff) && cutoff <= now
    ensures KeptFrom(kept + [now], times + [now], cutoff)
  {
    var k :| Divides(times, k, cutoff) && kept == times[k..];
    assert kept + [now] == (times + [now])[k..];
    assert Divides(times + [now], k, cutoff);
  }

  lemma {:induction false} ExpireKeeps(cfg: Cfg, kept: seq<int>, times: seq<int>, cutoff: int, now: int)
    requires Micros(cfg.window) > 0 && KeptFrom(kept, times, cutoff) && cutoff <= now - Micros(cfg.window)
    requires Past(times, now)
    ensures KeptFrom(Expire(Python, cfg, kept, now), times, now - Micros(cfg.window))
  {
    if now < Micros(cfg.window) {
      var k :| Divides(times, k, cutoff) && kept == times[k..];
      AllKept(times, k, cutoff, now - Micros(cfg.window));
    } else {
      DropKeeps(kept, times, cutoff, now - Micros(cfg.window), now);
    }
  }

  /** Nothing is from before time 0. */
  lemma {:induction false} AllKept(times: seq<int>, k: int, cutoff: int, later: int)
    requires Divides(times, k, cutoff) && cutoff <= later < 0 && forall i :: 0 <= i < |times| ==> times[i] >= 0
    ensures Divides(times, k, later)
  {
  }

  /** Times in order, from 0 to now. */
  predicate Past(times: seq<int>, now: int) {
    Sorted(times, now) && forall i :: 0 <= i < |times| ==> times[i] >= 0
  }

  lemma {:induction false} PastAppend(times: seq<int>, clock: int, now: int)
    requires Past(times, clock) && 0 <= clock <= now
    ensures Past(times, now) && Past(times + [now], now)
  {
  }

  /** What an event does to the change times. */
  predicate ChangesStep(cfg: Cfg, s: Sel, e: Event, t: Sel) {
    var seen := if e.Quiet? then Expire(Python, cfg, s.changes, e.now) else s.changes;
    t.changes == if t.mcs != s.mcs then Expire(Python, cfg, seen + [e.now], e.now) else seen
  }

  lemma {:induction false} ChangesSteps(cfg: Cfg, s: Sel, e: Event)
    ensures ChangesStep(cfg, s, e, Next(Python, cfg, s, e).0)
  {
  }

  /** In every run the changes remembered are exactly those of the window before
      the latest change or watchdog run; by the refinement C remembers the last 16
      of them. */
  lemma {:induction false} RemembersWindow(cfg: Cfg, run: Run)
    requires Clocked(run) && Micros(cfg.window) > 0
    ensures var times := ChangeTimes(Python, cfg, run);
            && KeptFrom(After(Python, cfg, run).changes, times, ForgotAt(Python, cfg, run) - Micros(cfg.window))
            && Past(times, ClockOf(run))
    ensures 0 <= ForgotAt(Python, cfg, run) <= ClockOf(run)
  {
    if run == [] {
      assert [] == ChangeTimes(Python, cfg, run)[0..];
    } else {
      RemembersWindow(cfg, Front(run));
      var s, times := After(Python, cfg, Front(run)), ChangeTimes(Python, cfg, Front(run));
      ChangesSteps(cfg, s, Last(run));
      RemembersOn(cfg, s, Last(run), After(Python, cfg, run), times, ForgotAt(Python, cfg, Front(run)), ClockOf(Front(run)));
    }
  }

  lemma {:induction false} RemembersOn(cfg: Cfg, s: Sel, e: Event, t: Sel, times: seq<int>, forgot: int, clock: int)
    requires Micros(cfg.window) > 0 && ChangesStep(cfg, s, e, t)
    requires KeptFrom(s.changes, times, forgot - Micros(cfg.window)) && Past(times, clock) && 0 <= forgot <= clock <= e.now
    ensures var changed := t.mcs != s.mcs;
            var now := times + if changed then [e.now] else [];
            KeptFrom(t.changes, now, (if e.Quiet? || changed then e.now else forgot) - Micros(cfg.window)) && Past(now, e.now)
  {
    PastAppend(times, clock, e.now);
    var seen, from := s.changes, forgot;
    if e.Quiet? {
      ExpireKeeps(cfg, s.changes, times, forgot - Micros(cfg.window), e.now);
      seen, from := Expire(Python, cfg, s.changes, e.now), e.now;
    }
    if t.mcs != s.mcs {
      KeptAppend(seen, times, from - Micros(cfg.window), e.now);
      ExpireKeeps(cfg, seen + [e.now], times + [e.now], from - Micros(cfg.window), e.now);
    } else {
      assert times + [] == times;
    }
  }
}
