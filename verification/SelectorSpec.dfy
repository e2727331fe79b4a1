/** The MCS selector, as archive/c-poc/mcs_selector.c and
    telemetry/wfb_link_score.py both define it. The two differ in four places,
    told apart by `Impl`. Times are microseconds; floats are reals. */
module SelectorSpec {
  import opened Runs
  import opened Rings

  datatype Impl = C | Python

  datatype Cfg = Cfg(lo: real, hi: real, deadband: real, mcs0: int, mcs1: int, mcs2: int, mcsMin: int, mcsMax: int,
                     upConsecutive: int, downConsecutive: int, upCooldown: real, downCooldown: real,
                     failsafeTimeout: real, recoveryConsecutive: int,
                     window: real, threshold: int, backoff: real)

  /** -1 stands for none in `bucket`, `mcs` and `pending`. */
  datatype Sel = Sel(bucket: int, mcs: int, lastChange: int, lastData: int, pending: int, streak: int,
                     inFailsafe: bool, recovery: int, changes: seq<int>)

  datatype Decision = NoChange | Init | Down | Up | Failsafe | Recovered

  const OSC_RING := 16

  const START := Sel(-1, -1, 0, 0, -1, 0, false, 0, [])

  // ---- Pure parts

  function BucketFor(rssi: real, current: int, cfg: Cfg): (b: int)
    ensures 0 <= b <= 2
  {
    var lo, hi, db := cfg.lo, cfg.hi, cfg.deadband;
    if current < 0 then
      if rssi < lo then 0 else if rssi < hi then 1 else 2
    else if current == 0 then
      if rssi >= lo + db then (if rssi >= hi + db then 2 else 1) else 0
    else if current == 1 then
      if rssi < lo - db then 0 else if rssi >= hi + db then 2 else 1
    else if rssi < hi - db then (if rssi < lo - db then 0 else 1)
    else 2
  }

  function McsOf(bucket: int, cfg: Cfg): int {
    if bucket == 0 then cfg.mcs0 else if bucket == 1 then cfg.mcs1 else cfg.mcs2
  }

  /** C clamps to the minimum first, Python to the maximum first. */
  function McsFor(impl: Impl, bucket: int, cfg: Cfg): int {
    var m := McsOf(bucket, cfg);
    match impl
    case C =>
      var m := if m < cfg.mcsMin then cfg.mcsMin else m;
      if m > cfg.mcsMax then cfg.mcsMax else m
    case Python =>
      var m := if m > cfg.mcsMax then cfg.mcsMax else m;
      if m < cfg.mcsMin then cfg.mcsMin else m
  }

  /** Exactly when the two clamps agree, for every bucket and map. */
  lemma {:induction false} ClampsAgreeIff(bucket: int, cfg: Cfg)
    ensures McsFor(C, bucket, cfg) == McsFor(Python, bucket, cfg) <==> cfg.mcsMin <= cfg.mcsMax
  {
  }

  /** C subtracts in 64 unsigned bits. */
  function Elapsed(impl: Impl, now: int, since: int): int {
    if impl == C then Since(now, since) else now - since
  }

  // ---- The change times

  function DropBefore(changes: seq<int>, cutoff: int): (r: seq<int>)
    ensures |r| <= |changes|
  {
    if changes != [] && changes[0] < cutoff then DropBefore(changes[1..], cutoff) else changes
  }

  function Expire(impl: Impl, cfg: Cfg, changes: seq<int>, now: int): (r: seq<int>)
    ensures |r| <= |changes|
  {
    var w := Micros(cfg.window);
    if w == 0 then (if impl == C then changes else [])
    else if now < w then changes
    else DropBefore(changes, now - w)
  }

  function Record(impl: Impl, cfg: Cfg, changes: seq<int>, now: int): seq<int> {
    Expire(impl, cfg, if impl == C then LastOf(changes + [now], OSC_RING) else changes + [now], now)
  }

  predicate Oscillating(cfg: Cfg, changes: seq<int>) {
    |changes| >= cfg.threshold
  }

  // ---- The operations

  function Commit(impl: Impl, cfg: Cfg, s: Sel, bucket: int, now: int): Sel {
    var mcs := McsFor(impl, bucket, cfg);
    var t := s.(bucket := bucket, mcs := mcs, pending := -1, streak := 0);
    if s.mcs != mcs then t.(lastChange := now, changes := Record(impl, cfg, s.changes, now)) else t
  }

  /** The watchdog without a sample. */
  function NoData(impl: Impl, cfg: Cfg, s: Sel, now: int): (Sel, Decision) {
    var s := s.(changes := Expire(impl, cfg, s.changes, now));
    if s.lastData == 0 || Elapsed(impl, now, s.lastData) < Micros(cfg.failsafeTimeout)
       || (s.inFailsafe && s.bucket == 0) then (s, NoChange)
    else (Commit(impl, cfg, s.(inFailsafe := true, recovery := 0), 0, now), Failsafe)
  }

  /** The streak a candidate different from the current bucket reaches. */
  function Streak(s: Sel, candidate: int): int {
    if candidate != s.pending then 1 else s.streak + 1
  }

  function Cooldown(cfg: Cfg, s: Sel, down: bool): real {
    if down then cfg.downCooldown
    else if Oscillating(cfg, s.changes) then cfg.upCooldown * cfg.backoff
    else cfg.upCooldown
  }

  /** Outside failsafe; `idle` is what is reported when nothing is committed. */
  function Consider(impl: Impl, cfg: Cfg, s: Sel, candidate: int, now: int, idle: Decision): (Sel, Decision) {
    if candidate == s.bucket then (s.(pending := -1, streak := 0), idle)
    else
      var t := s.(pending := candidate, streak := Streak(s, candidate));
      var down := candidate < s.bucket;
      if t.streak < (if down then cfg.downConsecutive else cfg.upConsecutive)
         || Elapsed(impl, now, s.lastChange) as real < Cooldown(cfg, s, down) * 1000000.0 then (t, idle)
      else (Commit(impl, cfg, t, candidate, now), if down then Down else Up)
  }

  /** One scored sample. Python reports "recovered"; C does not. */
  function Update(impl: Impl, cfg: Cfg, s: Sel, rssi: real, now: int): (Sel, Decision) {
    var s := s.(lastData := now);
    var candidate := BucketFor(rssi, s.bucket, cfg);
    if s.bucket < 0 then (Commit(impl, cfg, s, candidate, now), Init)
    else if !s.inFailsafe then Consider(impl, cfg, s, candidate, now, NoChange)
    else if rssi < cfg.lo + cfg.deadband then (s.(recovery := 0), NoChange)
    else if s.recovery + 1 < cfg.recoveryConsecutive then (s.(recovery := s.recovery + 1), NoChange)
    else Consider(impl, cfg, s.(inFailsafe := false, recovery := 0), candidate, now,
                  if impl == C then NoChange else Recovered)
  }

  // ---- Runs

  datatype Event = Sample(now: int, rssi: real) | Quiet(now: int)

  type Run = seq<Event>

  function Next(impl: Impl, cfg: Cfg, s: Sel, e: Event): (Sel, Decision) {
    match e
    case Sample(now, rssi) => Update(impl, cfg, s, rssi, now)
    case Quiet(now) => NoData(impl, cfg, s, now)
  }

  function After(impl: Impl, cfg: Cfg, run: Run): Sel {
    if run == [] then START else Next(impl, cfg, After(impl, cfg, Front(run)), Last(run)).0
  }

  function ClockOf(run: Run): int {
    if run == [] then 0 else Last(run).now
  }

  /** A monotone clock inside 64 bits. */
  predicate Clocked(run: Run) {
    run != [] ==> Clocked(Front(run)) && ClockOf(Front(run)) <= Last(run).now < U64
  }
}
