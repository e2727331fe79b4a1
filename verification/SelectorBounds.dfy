/** What the selector promises over whole runs, for either implementation. */
module SelectorBounds {
  import opened Runs
  import opened SelectorSpec

  function Abs(x: real): real {
    if x < 0.0 then -x else x
  }

  // ---- What one event can do

  predicate Committed(impl: Impl, cfg: Cfg, s: Sel, now: int, t: Sel) {
    t.mcs == McsFor(impl, t.bucket, cfg) && t.lastChange == if t.mcs != s.mcs then now else s.lastChange
  }

  predicate Stayed(s: Sel, t: Sel) {
    t.bucket == s.bucket && t.mcs == s.mcs && t.lastChange == s.lastChange
  }

  /** A sample moves the bucket to its candidate or not at all. */
  predicate SampleMoves(impl: Impl, cfg: Cfg, s: Sel, x: real, now: int, t: Sel, d: Decision) {
    && t.lastData == now && d != Failsafe
    && if s.bucket < 0 then d == Init && t.bucket == BucketFor(x, s.bucket, cfg) && Committed(impl, cfg, s, now, t)
       else if d == Up || d == Down then
         && t.bucket == BucketFor(x, s.bucket, cfg) && Committed(impl, cfg, s, now, t)
         && (if d == Up then t.bucket > s.bucket else t.bucket < s.bucket)
       else Stayed(s, t)
  }

  predicate QuietMoves(impl: Impl, cfg: Cfg, s: Sel, now: int, t: Sel, d: Decision) {
    && t.lastData == s.lastData
    && if d == Failsafe then t.bucket == 0 && s.lastData != 0 && Committed(impl, cfg, s, now, t)
       else d == NoChange && Stayed(s, t)
  }

  predicate Moves(impl: Impl, cfg: Cfg, s: Sel, e: Event, t: Sel, d: Decision) {
    match e
    case Sample(now, x) => SampleMoves(impl, cfg, s, x, now, t, d)
    case Quiet(now) => QuietMoves(impl, cfg, s, now, t, d)
  }

  lemma {:induction false} EventMoves(impl: Impl, cfg: Cfg, s: Sel, e: Event)
    requires s.bucket <= 2
    ensures var (t, d) := Next(impl, cfg, s, e); Moves(impl, cfg, s, e, t, d)
  {
  }

  /** The bucket stays in range, and before the first sample there is nothing to
      watch. */
  lemma {:induction false} Unseen(impl: Impl, cfg: Cfg, run: Run)
    ensures var s := After(impl, cfg, run); -1 <= s.bucket <= 2 && (s.bucket < 0 ==> s.lastData == 0)
  {
    if run != [] {
      Unseen(impl, cfg, Front(run));
      EventMoves(impl, cfg, After(impl, cfg, Front(run)), Last(run));
    }
  }

  // ---- Churn

  datatype Turn = NoTurn | TurnUp | TurnDown

  /** `n` counts bucket changes after the initial commit, `trips` the failsafe
      trips, `tv` is the total variation of the samples so far. The rest
      remembers the last sample, and the last change since the latest trip: its
      direction, its sample and the variation up to it. */
  datatype Churn = Churn(n: nat, trips: nat, tv: real, seen: bool, last: real, turn: Turn, at: real, tvAt: real)

  const NO_CHURN := Churn(0, 0, 0.0, false, 0.0, NoTurn, 0.0, 0.0)

  /** From `s` to `t` by event `e` with decision `d`. */
  function ChurnOn(s: Sel, e: Event, t: Sel, d: Decision, ch: Churn): Churn {
    var ch := if s.bucket >= 0 && t.bucket != s.bucket then ch.(n := ch.n + 1) else ch;
    match e
    case Quiet(_) => if d == Failsafe then ch.(trips := ch.trips + 1, turn := NoTurn, tvAt := ch.tv) else ch
    case Sample(_, x) =>
      var ch := ch.(tv := if ch.seen then ch.tv + Abs(x - ch.last) else ch.tv, seen := true, last := x);
      if s.bucket < 0 || t.bucket == s.bucket then ch
      else ch.(turn := if t.bucket > s.bucket then TurnUp else TurnDown, at := x, tvAt := ch.tv)
  }

  function ChurnOf(impl: Impl, cfg: Cfg, run: Run): Churn {
    if run == [] then NO_CHURN
    else
      var s := After(impl, cfg, Front(run));
      var (t, d) := Next(impl, cfg, s, Last(run));
      ChurnOn(s, Last(run), t, d, ChurnOf(impl, cfg, Front(run)))
  }

  /** How many more changes the current direction allows. */
  function Room(bucket: int, turn: Turn): int {
    match turn
    case NoTurn => 2
    case TurnUp => 2 - bucket
    case TurnDown => bucket
  }

  /** Which side of its threshold the last change's sample was on. */
  predicate TurnExplained(cfg: Cfg, bucket: int, ch: Churn) {
    match ch.turn
    case NoTurn => true
    case TurnUp => 1 <= bucket <= 2 && ch.at >= (if bucket == 1 then cfg.lo else cfg.hi) + cfg.deadband
    case TurnDown => 0 <= bucket <= 1 && ch.at < (if bucket == 0 then cfg.lo else cfg.hi) - cfg.deadband
  }

  predicate ChurnInv(cfg: Cfg, bucket: int, ch: Churn)
    requires cfg.deadband > 0.0
  {
    && -1 <= bucket <= 2 && (bucket >= 0 ==> ch.seen) && ch.tv >= ch.tvAt >= 0.0
    && (bucket < 0 ==> ch.n == 0 && ch.turn == NoTurn)
    && TurnExplained(cfg, bucket, ch)
    && (ch.turn != NoTurn ==> ch.seen && ch.tv >= ch.tvAt + Abs(ch.last - ch.at))
    && (ch.n + Room(bucket, ch.turn)) as real <= (2 + 3 * ch.trips) as real + ch.tvAt / cfg.deadband
  }

  lemma {:induction false} Ratio(n: real, k: real, tv: real, d: real)
    requires d > 0.0 && n * d <= k * d + tv
    ensures n <= k + tv / d
  {
    assert (k + tv / d) * d == k * d + tv;
    if n > k + tv / d {
      Grows(k + tv / d, n, d);
      assert false;
    }
  }

  lemma {:induction false} Grows(a: real, b: real, d: real)
    requires a < b && d > 0.0
    ensures a * d < b * d
  {
  }

  /** In units of the deadband. */
  lemma {:induction false} Scaled(a: real, b: real, d: real)
    requires d > 0.0 && a <= b
    ensures a / d <= b / d
    ensures a + 2.0 * d <= b ==> a / d + 2.0 <= b / d
  {
    Ratio(a / d, 0.0, b, d);
    if a + 2.0 * d <= b {
      Ratio(a / d + 2.0, 0.0, b, d);
    }
  }

  lemma {:induction false} Triangle(x: real, y: real, z: real)
    ensures Abs(x - z) <= Abs(x - y) + Abs(y - z)
  {
  }

  /** Changes in opposite directions are two deadbands apart. */
  lemma {:induction false} OppositeApart(cfg: Cfg, b: int, c: int, ch: Churn, x: real)
    requires cfg.lo < cfg.hi && cfg.deadband > 0.0 && 0 <= b <= 2 && TurnExplained(cfg, b, ch)
    requires c == BucketFor(x, b, cfg) && (if ch.turn == TurnUp then c < b else c > b) && ch.turn != NoTurn
    ensures Abs(x - ch.at) >= 2.0 * cfg.deadband
  {
  }

  /** The arithmetic of one change: it uses up room, or turns round at the price
      of two deadbands. */
  lemma {:induction false} TurnCost(cfg: Cfg, b: int, c: int, ch: Churn, x: real)
    requires cfg.lo < cfg.hi && cfg.deadband > 0.0 && 0 <= b <= 2 && ChurnInv(cfg, b, ch)
    requires c == BucketFor(x, b, cfg) && c != b
    ensures (ch.n + 1 + Room(c, if c > b then TurnUp else TurnDown)) as real
              <= (2 + 3 * ch.trips) as real + (ch.tv + Abs(x - ch.last)) / cfg.deadband
  {
    Scaled(ch.tvAt, ch.tv + Abs(x - ch.last), cfg.deadband);
    if ch.turn != NoTurn && ch.turn != (if c > b then TurnUp else TurnDown) {
      OppositeApart(cfg, b, c, ch, x);
      Triangle(x, ch.last, ch.at);
    }
  }

  lemma {:induction false} ChurnSample(impl: Impl, cfg: Cfg, s: Sel, x: real, now: int, t: Sel, d: Decision, ch: Churn)
    requires cfg.lo < cfg.hi && cfg.deadband > 0.0 && ChurnInv(cfg, s.bucket, ch)
    requires SampleMoves(impl, cfg, s, x, now, t, d)
    ensures ChurnInv(cfg, t.bucket, ChurnOn(s, Sample(now, x), t, d, ch))
  {
    if s.bucket >= 0 && t.bucket != s.bucket {
      ChurnTurn(cfg, s, x, now, t, d, ch);
    } else if ch.seen {
      Triangle(x, ch.last, ch.at);
      Triangle(ch.last, x, ch.at);
    }
  }

  lemma {:induction false} ChurnTurn(cfg: Cfg, s: Sel, x: real, now: int, t: Sel, d: Decision, ch: Churn)
    requires cfg.lo < cfg.hi && cfg.deadband > 0.0 && ChurnInv(cfg, s.bucket, ch)
    requires s.bucket >= 0 && t.bucket != s.bucket && t.bucket == BucketFor(x, s.bucket, cfg)
    ensures ChurnInv(cfg, t.bucket, ChurnOn(s, Sample(now, x), t, d, ch))
  {
    TurnCost(cfg, s.bucket, t.bucket, ch, x);
  }

  lemma {:induction false} ChurnQuiet(impl: Impl, cfg: Cfg, s: Sel, now: int, t: Sel, d: Decision, ch: Churn)
    requires cfg.deadband > 0.0 && ChurnInv(cfg, s.bucket, ch) && (s.bucket < 0 ==> s.lastData == 0)
    requires QuietMoves(impl, cfg, s, now, t, d)
    ensures ChurnInv(cfg, t.bucket, ChurnOn(s, Quiet(now), t, d, ch))
  {
    Scaled(ch.tvAt, ch.tv, cfg.deadband);
  }

  lemma {:induction false} ChurnHolds(impl: Impl, cfg: Cfg, run: Run)
    requires cfg.lo < cfg.hi && cfg.deadband > 0.0
    ensures ChurnInv(cfg, After(impl, cfg, run).bucket, ChurnOf(impl, cfg, run))
  {
    if run != [] {
      ChurnHolds(impl, cfg, Front(run));
      Unseen(impl, cfg, Front(run));
      var s, ch := After(impl, cfg, Front(run)), ChurnOf(impl, cfg, Front(run));
      var (t, d) := Next(impl, cfg, s, Last(run));
      EventMoves(impl, cfg, s, Last(run));
      match Last(run)
      case Sample(now, x) => ChurnSample(impl, cfg, s, x, now, t, d, ch);
      case Quiet(now) => ChurnQuiet(impl, cfg, s, now, t, d, ch);
    }
  }

  /** In any run the number of bucket changes after the initial commit is at most
      2 + 3 * trips + TV / deadband; without failsafe trips, 2 + TV / deadband. */
  lemma {:induction false} ChurnBound(impl: Impl, cfg: Cfg, run: Run)
    requires cfg.lo < cfg.hi && cfg.deadband > 0.0
    ensures var ch := ChurnOf(impl, cfg, run); ch.n as real <= (2 + 3 * ch.trips) as real + ch.tv / cfg.deadband
  {
    ChurnHolds(impl, cfg, run);
    var ch := ChurnOf(impl, cfg, run);
    Scaled(ch.tvAt, ch.tv, cfg.deadband);
  }

  // ---- Rate

  predicate Increasing(impl: Impl, cfg: Cfg) {
    McsFor(impl, 0, cfg) < McsFor(impl, 1, cfg) < McsFor(impl, 2, cfg)
  }

  /** MCS changes after the initial commit, and up-commits among them, from time
      `from` on. */
  datatype Rate = Rate(n: nat, ups: nat)

  function RateOn(s: Sel, e: Event, t: Sel, d: Decision, from: int, r: Rate): Rate {
    if e.now < from || s.bucket < 0 || t.mcs == s.mcs then r
    else Rate(r.n + 1, if d == Up then r.ups + 1 else r.ups)
  }

  function RateOf(impl: Impl, cfg: Cfg, run: Run, from: int): Rate {
    if run == [] then Rate(0, 0)
    else
      var s := After(impl, cfg, Front(run));
      var (t, d) := Next(impl, cfg, s, Last(run));
      RateOn(s, Last(run), t, d, from, RateOf(impl, cfg, Front(run), from))
  }

  function UpMicros(cfg: Cfg): real {
    cfg.upCooldown * 1000000.0
  }

  predicate RateInv(impl: Impl, cfg: Cfg, s: Sel, from: int, now: int, r: Rate) {
    && -1 <= s.bucket <= 2 && 0 <= s.lastChange <= now && (now < from ==> r == Rate(0, 0))
    && (if s.bucket < 0 then r == Rate(0, 0) && s.lastData == 0
        else s.mcs == McsFor(impl, s.bucket, cfg) && r.n + s.bucket <= 3 * r.ups + 2)
    && (r.ups > 0 ==> s.lastChange as real >= from as real + (r.ups - 1) as real * UpMicros(cfg))
  }

  lemma {:induction false} RateStep(impl: Impl, cfg: Cfg, s: Sel, e: Event, t: Sel, d: Decision, from: int, now: int, r: Rate)
    requires Increasing(impl, cfg) && RateInv(impl, cfg, s, from, now, r) && Moves(impl, cfg, s, e, t, d)
    requires 0 <= now <= e.now && UpMicros(cfg) > 0.0
    requires d == Up ==> e.now as real >= s.lastChange as real + UpMicros(cfg)
    ensures RateInv(impl, cfg, t, from, e.now, RateOn(s, e, t, d, from, r))
  {
  }

  /** An up-commit comes at least the up-cooldown after the last MCS change. */
  lemma {:induction false} UpWaits(impl: Impl, cfg: Cfg, s: Sel, e: Event)
    requires cfg.upCooldown > 0.0 && cfg.backoff >= 1.0 && s.bucket <= 2
    requires 0 <= s.lastChange <= e.now < U64 && Next(impl, cfg, s, e).1 == Up
    ensures e.now as real >= s.lastChange as real + UpMicros(cfg)
  {
    assert e.Sample?;
    var longer := cfg.upCooldown * cfg.backoff;
    assert longer - cfg.upCooldown == cfg.upCooldown * (cfg.backoff - 1.0);
    assert longer >= cfg.upCooldown;
    var u := s.(lastData := e.now);
    var candidate := BucketFor(e.rssi, s.bucket, cfg);
    var idle := if impl == C then NoChange else Recovered;
    if s.inFailsafe {
      UpWaitsIn(impl, cfg, u.(inFailsafe := false, recovery := 0), candidate, e.now, idle, longer);
    } else {
      UpWaitsIn(impl, cfg, u, candidate, e.now, NoChange, longer);
    }
  }

  lemma {:induction false} UpWaitsIn(impl: Impl, cfg: Cfg, s: Sel, candidate: int, now: int, idle: Decision, longer: real)
    requires longer == cfg.upCooldown * cfg.backoff >= cfg.upCooldown && idle != Up
    requires 0 <= s.lastChange <= now < U64 && Consider(impl, cfg, s, candidate, now, idle).1 == Up
    ensures now as real >= s.lastChange as real + UpMicros(cfg)
  {
    assert Elapsed(impl, now, s.lastChange) == now - s.lastChange;
    var c := Cooldown(cfg, s, false);
    assert c == cfg.upCooldown || c == longer;
    assert c * 1000000.0 >= UpMicros(cfg);
    assert (now - s.lastChange) as real >= c * 1000000.0;
  }

  lemma {:induction false} RateHolds(impl: Impl, cfg: Cfg, run: Run, from: int)
    requires Increasing(impl, cfg) && cfg.upCooldown > 0.0 && cfg.backoff >= 1.0 && Clocked(run)
    ensures RateInv(impl, cfg, After(impl, cfg, run), from, ClockOf(run), RateOf(impl, cfg, run, from))
    ensures ClockOf(run) >= 0
  {
    if run != [] {
      RateHolds(impl, cfg, Front(run), from);
      var s, r, now := After(impl, cfg, Front(run)), RateOf(impl, cfg, Front(run), from), ClockOf(Front(run));
      var (t, d) := Next(impl, cfg, s, Last(run));
      EventMoves(impl, cfg, s, Last(run));
      if d == Up {
        UpWaits(impl, cfg, s, Last(run));
      }
      RateStep(impl, cfg, s, Last(run), t, d, from, now, r);
    }
  }

  /** With a strictly increasing map, any window of length `w` has at most
      3 * (floor(w / up_cooldown) + 1) + 2 MCS changes after the initial commit. */
  lemma {:induction false} RateBound(impl: Impl, cfg: Cfg, run: Run, from: int, w: nat)
    requires Increasing(impl, cfg) && cfg.upCooldown > 0.0 && cfg.backoff >= 1.0 && Clocked(run)
    requires ClockOf(run) <= from + w
    ensures RateOf(impl, cfg, run, from).n <= 3 * ((w as real / UpMicros(cfg)).Floor + 1) + 2
  {
    RateHolds(impl, cfg, run, from);
    RateRatio(impl, cfg, After(impl, cfg, run), from, ClockOf(run), RateOf(impl, cfg, run, from), w, UpMicros(cfg));
  }

  lemma {:induction false} RateRatio(impl: Impl, cfg: Cfg, s: Sel, from: int, now: int, r: Rate, w: nat, u: real)
    requires RateInv(impl, cfg, s, from, now, r) && now <= from + w && u == UpMicros(cfg) > 0.0
    ensures r.n <= 3 * ((w as real / u).Floor + 1) + 2
  {
    var k := if r.ups > 0 then r.ups - 1 else 0;
    assert k as real * u <= w as real;
    Fits(k as real, w as real, u);
    FloorFits(k, w as real / u);
  }

  lemma {:induction false} FloorFits(k: int, q: real)
    requires k as real <= q
    ensures k <= q.Floor
  {
  }

  lemma {:induction false} Fits(k: real, w: real, u: real)
    requires u > 0.0 && k * u <= w
    ensures k <= w / u
  {
    Ratio(k, 0.0, w, u);
  }

  // ---- Failsafe

  /** Failsafe pins the lowest bucket. */
  lemma {:induction false} FailsafeIsLow(impl: Impl, cfg: Cfg, run: Run)
    ensures After(impl, cfg, run).inFailsafe ==> After(impl, cfg, run).bucket == 0
  {
    if run != [] {
      FailsafeIsLow(impl, cfg, Front(run));
    }
  }

  /** Samples since the latest trip, as long as no up-commit has come; else -1. */
  function SinceTrip(impl: Impl, cfg: Cfg, run: Run): int {
    if run == [] then -1
    else
      var k, d := SinceTrip(impl, cfg, Front(run)), Next(impl, cfg, After(impl, cfg, Front(run)), Last(run)).1;
      if d == Failsafe then 0 else if k < 0 || d == Up then -1 else if Last(run).Sample? then k + 1 else k
  }

  function AtLeastOne(n: int): int {
    if n < 1 then 1 else n
  }

  predicate Recovering(cfg: Cfg, s: Sel, k: int) {
    k >= 0 ==>
      && s.bucket == 0
      && if s.inFailsafe then s.streak == 0 && 0 <= s.recovery <= k
         else 0 <= s.streak <= k - (AtLeastOne(cfg.recoveryConsecutive) - 1)
  }

  /** The first up-commit after a trip takes at least recovery_consecutive +
      up_consecutive - 1 samples. */
  lemma {:induction false} RecoveryTakes(impl: Impl, cfg: Cfg, run: Run)
    ensures Recovering(cfg, After(impl, cfg, run), SinceTrip(impl, cfg, run))
    ensures run != [] && SinceTrip(impl, cfg, Front(run)) >= 0
            && Next(impl, cfg, After(impl, cfg, Front(run)), Last(run)).1 == Up ==>
              SinceTrip(impl, cfg, Front(run)) + 1
                >= AtLeastOne(cfg.recoveryConsecutive) + AtLeastOne(cfg.upConsecutive) - 1
  {
    if run != [] {
      RecoveryTakes(impl, cfg, Front(run));
    }
  }

  /** The time of the latest sample, and whether the watchdog ran at least the
      timeout after it. */
  datatype Hush = Hush(sample: int, late: bool)

  function HushOf(cfg: Cfg, run: Run): Hush {
    if run == [] then Hush(0, false)
    else
      var h := HushOf(cfg, Front(run));
      match Last(run)
      case Sample(now, _) => Hush(now, false)
      case Quiet(now) => Hush(h.sample, h.late || now - h.sample >= Micros(cfg.failsafeTimeout))
  }

  /** Silence of the timeout, and one watchdog run, force the lowest bucket for
      as long as the silence lasts. A sample at time 0 is taken for no sample. */
  lemma {:induction false} SilenceForcesLow(impl: Impl, cfg: Cfg, run: Run)
    requires Clocked(run)
    ensures var s, h := After(impl, cfg, run), HushOf(cfg, run);
            && s.lastData == h.sample && 0 <= h.sample <= ClockOf(run) && s.bucket <= 2
            && (h.sample > 0 && h.late ==> s.inFailsafe && s.bucket == 0)
  {
    if run != [] {
      SilenceForcesLow(impl, cfg, Front(run));
      match Last(run)
      case Sample(now, x) => EventMoves(impl, cfg, After(impl, cfg, Front(run)), Last(run));
      case Quiet(now) => QuietForcesLow(impl, cfg, After(impl, cfg, Front(run)), now);
    }
  }

  lemma {:induction false} QuietForcesLow(impl: Impl, cfg: Cfg, s: Sel, now: int)
    requires 0 <= s.lastData <= now < U64
    ensures var t := NoData(impl, cfg, s, now).0;
            && t.lastData == s.lastData
            && (s.lastData > 0 && (now - s.lastData >= Micros(cfg.failsafeTimeout) || (s.inFailsafe && s.bucket == 0)) ==>
                  t.inFailsafe && t.bucket == 0)
  {
    assert Elapsed(impl, now, s.lastData) == now - s.lastData;
  }
}
