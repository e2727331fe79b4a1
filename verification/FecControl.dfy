/** The adaptive FEC controller of archive/c-poc/fec_controller.c: the headroom
    ring, the candidate, the boost, the grace windows and the commit gate, as
    functions on values. Times are microseconds, 0 stands for "unset". */
module FecControl {
  import opened Runs
  import opened Rings
  import FecSizing

  datatype Cfg = Cfg(sizing: FecSizing.Cfg, alpha: real, headroomWindow: real, margin: real, headroomMin: real,
                     headroomMax: real, kHystUp: int, cooldownUp: real, downDwell: real, upDwell: real,
                     startupGrace: real, boostSecs: real)

  const RING_MAX := 512

  /** Frame times and sizes, oldest first. */
  datatype Window = Window(ts: seq<int>, sizes: seq<int>)

  datatype Ctl = Ctl(avg: real, have: bool, current: FecSizing.Params, lastUpdate: int, start: int,
                     boostUntil: int, wasBoosting: bool, graceUntil: int, wasInGrace: bool,
                     downSince: int, downTarget: int, upSince: int, upTarget: int)

  const NO_PARAMS := FecSizing.Params(0, 0, 0.0, 0, 0.0, 0.0)
  const START := Ctl(0.0, false, NO_PARAMS, 0, 0, 0, false, 0, false, 0, 0, 0, 0)
  const EMPTY := Window([], [])

  /** Held for fewer seconds than `secs`. */
  predicate Shorter(now: int, since: int, secs: real) {
    Since(now, since) as real < secs * 1000000.0
  }

  // ---- Headroom

  function Push(w: Window, now: int, size: int): Window {
    Window(LastOf(w.ts + [now], RING_MAX), LastOf(w.sizes + [size], RING_MAX))
  }

  function Stale(ts: seq<int>, cutoff: int): (k: nat)
    ensures k <= |ts| && (forall i :: 0 <= i < k ==> ts[i] < cutoff) && (k < |ts| ==> ts[k] >= cutoff)
  {
    if ts != [] && ts[0] < cutoff then
      var k := Stale(ts[1..], cutoff);
      assert forall i :: 0 < i < k + 1 ==> ts[i] == ts[1..][i - 1];
      1 + k
    else 0
  }

  function Expire(w: Window, cutoff: int): Window
    requires |w.ts| == |w.sizes|
  {
    var k := Stale(w.ts, cutoff);
    Window(w.ts[k..], w.sizes[k..])
  }

  /** A stale oldest frame makes no difference. */
  lemma {:induction false} ExpireOne(w: Window, cutoff: int)
    requires |w.ts| == |w.sizes| > 0 && w.ts[0] < cutoff
    ensures Expire(w, cutoff) == Expire(Window(w.ts[1..], w.sizes[1..]), cutoff)
  {
    var k := Stale(w.ts[1..], cutoff);
    assert w.ts[1..][k..] == w.ts[k + 1..] && w.sizes[1..][k..] == w.sizes[k + 1..];
  }

  function Total(s: seq<int>): int {
    if s == [] then 0 else s[0] + Total(s[1..])
  }

  function Biggest(s: seq<int>): (m: int)
    ensures m >= 0 && forall i :: 0 <= i < |s| ==> s[i] <= m
  {
    if s == [] then 0
    else
      var m := Biggest(s[1..]);
      assert forall i :: 0 < i < |s| ==> s[i] == s[1..][i - 1];
      if s[0] > m then s[0] else m
  }

  /** The largest size over the average, with the margin. */
  function Ratio(cfg: Cfg, count: int, sum: int, biggest: int): real
    requires count > 0 && sum > 0
  {
    var avg := sum as real / count as real;
    biggest as real / avg * cfg.margin
  }

  function Headroom(cfg: Cfg, sizes: seq<int>): real {
    if |sizes| < 2 || Total(sizes) <= 0 then cfg.headroomMin
    else
      var ratio := Ratio(cfg, |sizes|, Total(sizes), Biggest(sizes));
      var ratio := if ratio < cfg.headroomMin then cfg.headroomMin else ratio;
      if ratio > cfg.headroomMax then cfg.headroomMax else ratio
  }

  /** The window after a frame. The cutoff wraps when the clock is younger than
      the window, and then everything is stale. */
  function Slide(cfg: Cfg, w: Window, size: int, now: int): Window
    requires |w.ts| == |w.sizes|
  {
    Expire(Push(w, now, size), Since(now, Micros(cfg.headroomWindow)))
  }

  predicate Ordered(ts: seq<int>, now: int) {
    && (forall i, j :: 0 <= i < j < |ts| ==> ts[i] <= ts[j])
    && (forall i :: 0 <= i < |ts| ==> 0 <= ts[i] <= now)
  }

  lemma {:induction false} PushOrdered(w: Window, now: int, size: int)
    requires |w.ts| == |w.sizes| && Ordered(w.ts, now) && now >= 0
    ensures var p := Push(w, now, size);
            |p.ts| == |p.sizes| > 0 && Ordered(p.ts, now) && p.ts[|p.ts| - 1] == now
  {
  }

  lemma {:induction false} StaleIff(ts: seq<int>, cutoff: int, now: int)
    requires Ordered(ts, now)
    ensures forall i :: 0 <= i < |ts| ==> (i >= Stale(ts, cutoff) <==> ts[i] >= cutoff)
  {
    var k := Stale(ts, cutoff);
    forall i | k <= i < |ts| ensures ts[i] >= cutoff {
      assert ts[k] <= ts[i];
    }
  }

  /** `v` is the part of `p` that is not older than `from`. */
  ghost predicate Covers(v: Window, p: Window, from: int)
    requires |p.ts| == |p.sizes|
  {
    exists k: nat :: k <= |p.ts| && v == Window(p.ts[k..], p.sizes[k..])
                     && forall i :: 0 <= i < |p.ts| ==> (i >= k <==> p.ts[i] >= from)
  }

  /** Exactly when the window keeps the frame just pushed: once the clock is as
      old as the window. Then what is left is what the window covers of the last
      512 frames; before that nothing is left, and the headroom is the minimum. */
  lemma {:induction false} WindowIff(cfg: Cfg, w: Window, size: int, now: int)
    requires |w.ts| == |w.sizes| && Ordered(w.ts, now) && 0 <= now < U64 && 0 < Micros(cfg.headroomWindow) < U64
    ensures |Push(w, now, size).ts| == |Push(w, now, size).sizes|
    ensures Covers(Slide(cfg, w, size, now), Push(w, now, size), now - Micros(cfg.headroomWindow))
            <==> now >= Micros(cfg.headroomWindow)
    ensures now < Micros(cfg.headroomWindow) ==>
              Slide(cfg, w, size, now) == EMPTY && Headroom(cfg, Slide(cfg, w, size, now).sizes) == cfg.headroomMin
  {
    PushOrdered(w, now, size);
    ExpireIff(cfg, Push(w, now, size), now, Micros(cfg.headroomWindow));
  }

  lemma {:induction false} ExpireIff(cfg: Cfg, p: Window, now: int, width: int)
    requires |p.ts| == |p.sizes| > 0 && Ordered(p.ts, now) && p.ts[|p.ts| - 1] == now
    requires 0 <= now < U64 && 0 < width < U64
    ensures Covers(Expire(p, Since(now, width)), p, now - width) <==> now >= width
    ensures now < width ==> Expire(p, Since(now, width)) == EMPTY
  {
    var cutoff := Since(now, width);
    var k := Stale(p.ts, cutoff);
    StaleIff(p.ts, cutoff, now);
    if now >= width {
      assert cutoff == now - width;
    } else {
      assert cutoff == now - width + U64;
      assert k == |p.ts|;
    }
  }

  // ---- The controller

  datatype Outcome = Suppressed | Steady | WaitDown | WaitUp | First | BoostEdge | SettleEdge | KDown | KUp

  predicate Commits(o: Outcome) {
    o == First || o == BoostEdge || o == SettleEdge || o == KDown || o == KUp
  }

  function ArmSettle(c: Ctl, now: int, secs: real): Ctl {
    var end := now + Micros(secs);
    if end > c.graceUntil then c.(graceUntil := end) else c
  }

  function ArmBoost(cfg: Cfg, c: Ctl, now: int): Ctl {
    if cfg.boostSecs > 0.0 then c.(boostUntil := now + Micros(cfg.boostSecs)) else c
  }

  function Commit(c: Ctl, cand: FecSizing.Params, now: int): Ctl {
    c.(have := true, current := cand, lastUpdate := now, downSince := 0, downTarget := 0, upSince := 0, upTarget := 0)
  }

  function Average(cfg: Cfg, avg: real, size: int): real {
    if avg <= 0.0 then size as real else cfg.alpha * size as real + (1.0 - cfg.alpha) * avg
  }

  predicate Boosting(c: Ctl, now: int) {
    c.boostUntil != 0 && now < c.boostUntil
  }

  predicate InSettle(c: Ctl, now: int) {
    c.graceUntil != 0 && now < c.graceUntil
  }

  /** What the gate decides on. */
  datatype Tick = Tick(cand: FecSizing.Params, boostEdge: bool, inGrace: bool, settled: bool)

  /** The boost and grace windows a natural candidate meets. */
  function Windows(cfg: Cfg, c: Ctl, natural: FecSizing.Params, now: int): (Ctl, Tick) {
    var boosting, settle := Boosting(c, now), InSettle(c, now);
    var expired := c.boostUntil != 0 && !boosting;
    (c.(boostUntil := if expired then 0 else c.boostUntil, wasBoosting := boosting, wasInGrace := settle),
     Tick(if boosting then FecSizing.Boosted(cfg.sizing, natural) else natural,
          (boosting && !c.wasBoosting) || expired,
          Since(now, c.start) < Micros(cfg.startupGrace) || settle,
          c.wasInGrace && !settle))
  }

  /** The bookkeeping before the gate: start, average, candidate, windows. */
  function Prepare(cfg: Cfg, c: Ctl, headroom: real, size: int, now: int): (Ctl, Tick)
    requires cfg.sizing.mtu > 0
  {
    var c := c.(start := if c.start == 0 then now else c.start, avg := Average(cfg, c.avg, size));
    Windows(cfg, c, FecSizing.Compute(cfg.sizing, c.avg, headroom, if c.have then c.current.ppf else 0), now)
  }

  predicate SameSize(p: FecSizing.Params, q: FecSizing.Params) {
    p.k == q.k && p.n == q.n
  }

  function Gate(cfg: Cfg, c: Ctl, t: Tick, now: int): (Ctl, Outcome) {
    if !c.have then (if t.inGrace then (c, Suppressed) else (Commit(c, t.cand, now), First))
    else if t.boostEdge then (if SameSize(t.cand, c.current) then (c, Suppressed) else (Commit(c, t.cand, now), BoostEdge))
    else if t.inGrace then (c, Suppressed)
    else if t.settled then (if SameSize(t.cand, c.current) then (c, Suppressed) else (Commit(c, t.cand, now), SettleEdge))
    else if t.cand.k < c.current.k then GateDown(cfg, c, t, now)
    else if t.cand.k == c.current.k then (c.(downSince := 0, downTarget := 0, upSince := 0, upTarget := 0), Steady)
    else GateUp(cfg, c, t, now)
  }

  function GateDown(cfg: Cfg, c: Ctl, t: Tick, now: int): (Ctl, Outcome) {
    var since := if c.downSince == 0 then now else c.downSince;
    var c := c.(upSince := 0, upTarget := 0, downSince := since, downTarget := t.cand.k);
    if Shorter(now, since, cfg.downDwell) then (c, WaitDown) else (Commit(c, t.cand, now), KDown)
  }

  function GateUp(cfg: Cfg, c: Ctl, t: Tick, now: int): (Ctl, Outcome) {
    var since := if c.upSince == 0 then now else c.upSince;
    var c := c.(downSince := 0, downTarget := 0, upSince := since, upTarget := t.cand.k);
    if Shorter(now, since, cfg.upDwell) || t.cand.k - c.current.k < cfg.kHystUp
       || Shorter(now, c.lastUpdate, cfg.cooldownUp) then (c, WaitUp)
    else (Commit(c, t.cand, now), KUp)
  }

  function Update(cfg: Cfg, c: Ctl, sizes: seq<int>, size: int, now: int): (Ctl, Outcome)
    requires cfg.sizing.mtu > 0
  {
    var (c, t) := Prepare(cfg, c, Headroom(cfg, sizes), size, now);
    Gate(cfg, c, t, now)
  }

  // ---- What the average and the headroom are

  /** The first frame is taken as it is; a later one moves the average by its
      weight's share of the way. */
  lemma {:induction false} AverageMoves(cfg: Cfg, avg: real, size: int)
    ensures avg <= 0.0 ==> Average(cfg, avg, size) == size as real
    ensures avg > 0.0 ==> Average(cfg, avg, size) - avg == cfg.alpha * (size as real - avg)
  {
  }

  /** The sum of the sizes, newest first. */
  function SumBack(s: seq<int>): int {
    if s == [] then 0 else SumBack(Front(s)) + Last(s)
  }

  lemma {:induction false} SumsAlike(s: seq<int>)
    ensures Total(s) == SumBack(s)
  {
    if |s| == 1 {
      assert Front(s) == [] && s[1..] == [];
    } else if s != [] {
      SumsAlike(s[1..]);
      SumsAlike(Front(s));
      SumsAlike(Front(s[1..]));
      assert Front(s)[1..] == Front(s[1..]) && Last(s[1..]) == Last(s);
    }
  }

  predicate Largest(s: seq<int>, m: int) {
    m in s && forall i :: 0 <= i < |s| ==> s[i] <= m
  }

  lemma {:induction false} BiggestIsLargest(s: seq<int>)
    requires s != [] && forall i :: 0 <= i < |s| ==> s[i] >= 0
    ensures Largest(s, Biggest(s))
  {
    if |s| > 1 {
      BiggestIsLargest(s[1..]);
      assert Biggest(s[1..]) in s;
    }
  }

  /** `full` is the margin times the largest size over the mean size. */
  predicate FullHeadroom(cfg: Cfg, sizes: seq<int>, full: real) {
    exists m :: m in sizes && Largest(sizes, m) && full * SumBack(sizes) as real == cfg.margin * (m * |sizes|) as real
  }

  predicate Limited(h: real, full: real, lo: real, hi: real) {
    && lo <= h <= hi && (lo <= full <= hi ==> h == full) && (full < lo ==> h == lo) && (full > hi ==> h == hi)
  }

  /** The headroom of at least two frames that are not all empty is that, kept
      within its limits; otherwise it is the lower limit. */
  lemma {:induction false} HeadroomIs(cfg: Cfg, sizes: seq<int>)
    requires cfg.headroomMin <= cfg.headroomMax && forall i :: 0 <= i < |sizes| ==> sizes[i] >= 0
    ensures |sizes| < 2 || SumBack(sizes) == 0 ==> Headroom(cfg, sizes) == cfg.headroomMin
    ensures |sizes| >= 2 && SumBack(sizes) > 0 ==>
              exists full :: FullHeadroom(cfg, sizes, full) && Limited(Headroom(cfg, sizes), full, cfg.headroomMin, cfg.headroomMax)
  {
    SumsAlike(sizes);
    if |sizes| >= 2 && SumBack(sizes) > 0 {
      var m, full := Biggest(sizes), Ratio(cfg, |sizes|, Total(sizes), Biggest(sizes));
      BiggestIsLargest(sizes);
      RatioIs(cfg, |sizes|, Total(sizes), m);
      assert m in sizes && Largest(sizes, m);
      assert FullHeadroom(cfg, sizes, full);
      assert Limited(Headroom(cfg, sizes), full, cfg.headroomMin, cfg.headroomMax);
    }
  }

  lemma {:induction false} RatioIs(cfg: Cfg, count: int, sum: int, m: int)
    requires count > 0 && sum > 0
    ensures Ratio(cfg, count, sum, m) * sum as real == cfg.margin * (m * count) as real
  {
    var c, t := count as real, sum as real;
    var avg := t / c;
    Over(t, c);
    assert avg > 0.0;
    Over(m as real, avg);
    Scaled(m as real / avg, cfg.margin, avg, c, t, m as real);
    assert m as real * c == (m * count) as real;
  }

  lemma {:induction false} Over(a: real, b: real)
    requires b > 0.0
    ensures a / b * b == a && (a > 0.0 ==> a / b > 0.0)
  {
  }

  lemma {:induction false} Scaled(q: real, margin: real, avg: real, c: real, t: real, m: real)
    requires avg * c == t && q * avg == m
    ensures q * margin * t == margin * (m * c)
  {
    assert q * margin * t == margin * (q * avg * c);
  }
}
