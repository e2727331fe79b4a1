/** How archive/c-poc/fec_controller.c sizes a block: packets per frame with a
    deadband, k, redundancy from a curve, n, and the parity boost. Floats are
    reals. */
module FecSizing {

  datatype Cfg = Cfg(mtu: int, minK: int, maxK: int, minN: int, maxN: int, deadbandFrac: real, boostMult: real)

  datatype Params = Params(k: int, n: int, redundancy: real, ppf: int, avg: real, headroom: real)

  datatype Point = Point(k: int, r: real)

  const CURVE: seq<Point> := [Point(1, 0.50), Point(4, 0.40), Point(8, 0.33), Point(16, 0.30), Point(32, 0.27), Point(48, 0.25)]

  // ---- The curve

  /** The straight line from `p` to `q`. */
  function Line(p: Point, q: Point, k: int): real
    requires p.k < q.k
  {
    p.r + (k - p.k) as real / (q.k - p.k) as real * (q.r - p.r)
  }

  /** Redundancy at `k`: constant outside the table, straight lines inside. */
  function Curve(k: int): real {
    if k <= 1 then 0.50
    else if k <= 4 then Line(CURVE[0], CURVE[1], k)
    else if k <= 8 then Line(CURVE[1], CURVE[2], k)
    else if k <= 16 then Line(CURVE[2], CURVE[3], k)
    else if k <= 32 then Line(CURVE[3], CURVE[4], k)
    else if k <= 48 then Line(CURVE[4], CURVE[5], k)
    else 0.25
  }

  method InterpolateRedundancy(k: int) returns (r: real)
    ensures r == Curve(k)
  {
    if k <= CURVE[0].k {
      return CURVE[0].r;
    }
    if k >= CURVE[5].k {
      return CURVE[5].r;
    }
    for i := 0 to 5
      invariant k > CURVE[i].k
    {
      var p, q := CURVE[i], CURVE[i + 1];
      if p.k <= k <= q.k {
        return p.r + (k - p.k) as real / (q.k - p.k) as real * (q.r - p.r);
      }
    }
    assert false;
  }

  /** The points it goes through, level outside them, and the same step from one k
      to the next everywhere but at them. */
  lemma {:induction false} CurveIs(k: int)
    ensures Curve(1) == 0.50 && Curve(4) == 0.40 && Curve(8) == 0.33
    ensures Curve(16) == 0.30 && Curve(32) == 0.27 && Curve(48) == 0.25
    ensures (k <= 1 ==> Curve(k) == 0.50) && (k >= 48 ==> Curve(k) == 0.25)
    ensures k != 1 && k != 4 && k != 8 && k != 16 && k != 32 && k != 48 ==>
              Curve(k + 1) - Curve(k) == Curve(k) - Curve(k - 1)
  {
  }

  /** k packets over (1 - r): what n must at least be. */
  function Needed(k: int, r: real): real
    requires r < 1.0
  {
    k as real / (1.0 - r)
  }

  lemma {:induction false} CurveRange(k: int)
    ensures 0.25 <= Curve(k) <= 0.5
  {
  }

  function Ceil(x: real): (n: int)
    ensures n as real >= x && (n - 1) as real < x
  {
    -((-x).Floor)
  }

  // ---- Sizing

  function ClampTo(v: int, lo: int, hi: int): int {
    var v := if v < lo then lo else v;
    if v > hi then hi else v
  }

  function Slack(cfg: Cfg): real {
    cfg.mtu as real * cfg.deadbandFrac
  }

  function FreshPpf(cfg: Cfg, target: real): int
    requires cfg.mtu > 0
  {
    var ppf := Ceil(target / cfg.mtu as real);
    if ppf < 1 then 1 else ppf
  }

  /** Packets per frame; `current` is 0 before the first decision. */
  function PacketsPerFrame(cfg: Cfg, target: real, current: int): int
    requires cfg.mtu > 0
  {
    Kept(cfg, target, current, FreshPpf(cfg, target))
  }

  /** The current value as long as a fresh one is within the deadband. */
  function Kept(cfg: Cfg, target: real, current: int, ppf: int): int {
    if current > 0 && cfg.deadbandFrac > 0.0 then
      var up := (current + 1) as real * cfg.mtu as real + Slack(cfg);
      var down := (current - 1) as real * cfg.mtu as real - Slack(cfg);
      if (ppf > current && target < up) || (ppf < current && target > down) then current else ppf
    else ppf
  }

  function SizeN(cfg: Cfg, k: int, r: real): int
    requires r < 1.0
  {
    var n := ClampTo(Ceil(Needed(k, r)), cfg.minN, cfg.maxN);
    if n <= k then k + 1 else n
  }

  function Compute(cfg: Cfg, avg: real, headroom: real, current: int): Params
    requires cfg.mtu > 0
  {
    var ppf := PacketsPerFrame(cfg, avg * headroom, current);
    var k := ClampTo(ppf, cfg.minK, cfg.maxK);
    var r := Curve(k);
    var r := if r > 0.99 then 0.99 else r;
    Params(k, SizeN(cfg, k, r), r, ppf, avg, headroom)
  }

  /** The parity boost after an MCS drop. */
  function Boosted(cfg: Cfg, p: Params): Params {
    var parity := if p.n - p.k < 1 then 1 else p.n - p.k;
    var b := p.k + Ceil(parity as real * cfg.boostMult);
    var b := if b > cfg.maxN then cfg.maxN else b;
    var b := if b <= p.k then p.k + 1 else b;
    p.(n := b, redundancy := if b != 0 then 1.0 - p.k as real / b as real else 0.0)
  }

  // ---- What it guarantees

  predicate Sane(cfg: Cfg) {
    cfg.mtu > 0 && 1 <= cfg.minK <= cfg.maxK < cfg.maxN && cfg.minN <= cfg.maxN
  }

  lemma {:induction false} NeedsMoreThanK(k: int, r: real)
    requires k >= 1 && 0.0 < r < 1.0
    ensures Needed(k, r) > k as real && Ceil(Needed(k, r)) > k
  {
    Scale(k as real, 1.0 - r);
  }

  lemma {:induction false} Scale(a: real, d: real)
    requires a > 0.0 && 0.0 < d < 1.0
    ensures a / d > a
  {
    var q := a / d;
    assert q * d == a;
    Positive(a, 1.0 - d);
    assert a * (1.0 - d) == a - a * d;
    if q <= a {
      Cancel(a, q, d);
      assert false;
    }
  }

  lemma {:induction false} Positive(a: real, b: real)
    requires a > 0.0 && b > 0.0
    ensures a * b > 0.0
  {
  }

  lemma {:induction false} SizesInRange(cfg: Cfg, avg: real, headroom: real, current: int)
    requires Sane(cfg)
    ensures var p := Compute(cfg, avg, headroom, current);
            cfg.minK <= p.k <= cfg.maxK && p.k < p.n <= cfg.maxN
    ensures var p := Compute(cfg, avg, headroom, current);
            cfg.boostMult >= 0.0 ==> p.k < Boosted(cfg, p).n <= cfg.maxN
  {
  }

  /** n packets with k of them data carry at least redundancy r. */
  predicate Enough(k: int, n: int, r: real) {
    (n - k) as real >= r * n as real
  }

  lemma {:induction false} ShareIff(k: real, n: real, r: real)
    requires r < 1.0
    ensures n - k >= r * n <==> n >= k / (1.0 - r)
  {
    var d := 1.0 - r;
    var q := k / d;
    assert q * d == k;
    assert n * d == n - r * n;
    Cancel(n, q, d);
  }

  lemma {:induction false} Cancel(a: real, b: real, d: real)
    requires d > 0.0
    ensures a * d >= b * d <==> a >= b
  {
    assert a * d - b * d == (a - b) * d;
  }

  /** Unless max_n cuts it off, n is the least value from min_n on with the
      redundancy r. */
  lemma {:induction false} NIsLeast(cfg: Cfg, k: int, r: real)
    requires Sane(cfg) && cfg.minK <= k <= cfg.maxK && 0.0 < r < 1.0
    ensures var n := SizeN(cfg, k, r);
            if Enough(k, cfg.maxN, r) then
              Enough(k, n, r) && n >= cfg.minN && forall m :: cfg.minN <= m < n ==> !Enough(k, m, r)
            else n == cfg.maxN
  {
    NeedsMoreThanK(k, r);
    var n := SizeN(cfg, k, r);
    ShareIff(k as real, cfg.maxN as real, r);
    ShareIff(k as real, n as real, r);
    forall m | cfg.minN <= m < n && Enough(k, cfg.maxN, r) ensures !Enough(k, m, r) {
      ShareIff(k as real, m as real, r);
    }
  }

  /** The parameters of every decision: the curve's redundancy at k, and the
      least n with it. */
  lemma {:induction false} ComputeIsLeast(cfg: Cfg, avg: real, headroom: real, current: int)
    requires Sane(cfg)
    ensures var p := Compute(cfg, avg, headroom, current);
            && p.redundancy == Curve(p.k) && cfg.minK <= p.k <= cfg.maxK
            && (p.k != p.ppf ==> (p.ppf < cfg.minK && p.k == cfg.minK) || (p.ppf > cfg.maxK && p.k == cfg.maxK))
            && p.ppf == PacketsPerFrame(cfg, avg * headroom, current)
            && if Enough(p.k, cfg.maxN, p.redundancy) then
                 Enough(p.k, p.n, p.redundancy) && p.n >= cfg.minN
                 && forall m :: cfg.minN <= m < p.n ==> !Enough(p.k, m, p.redundancy)
               else p.n == cfg.maxN
  {
    var k := ClampTo(PacketsPerFrame(cfg, avg * headroom, current), cfg.minK, cfg.maxK);
    CurveRange(k);
    NIsLeast(cfg, k, Curve(k));
  }

  /** More packets never need less: n grows with k over the whole curve, although
      the redundancy falls. */
  lemma {:induction false} NeededStep(k: int, r: real, s: real)
    requires k >= 1 && r == Curve(k) && s == Curve(k + 1)
    ensures r < 1.0 && s < 1.0 && Needed(k, r) <= Needed(k + 1, s)
  {
    CurveRange(k);
    CurveRange(k + 1);
    DropIsSlow(k, r, s);
    NeededMonotone(k, r, s);
  }

  lemma {:induction false} NeededMonotone(k: int, r: real, s: real)
    requires r < 1.0 && s < 1.0 && k as real * (1.0 - s) <= (k + 1) as real * (1.0 - r)
    ensures Needed(k, r) <= Needed(k + 1, s)
  {
    Cross(k as real, 1.0 - r, (k + 1) as real, 1.0 - s);
  }

  lemma {:induction false} DropIsSlow(k: int, r: real, s: real)
    requires k >= 1 && r == Curve(k) && s == Curve(k + 1)
    ensures k as real * (1.0 - s) <= (k + 1) as real * (1.0 - r)
  {
  }

  lemma {:induction false} Cross(a: real, c: real, b: real, d: real)
    requires c > 0.0 && d > 0.0 && a * d <= b * c
    ensures a / c <= b / d
  {
    assert a / c * c == a && b / d * d == b;
    assert a * d == (a / c) * (c * d) && b * c == (b / d) * (c * d);
    Cancel(b / d, a / c, c * d);
  }

  lemma {:induction false} NGrowsWithK(cfg: Cfg, j: int, k: int)
    requires Sane(cfg) && 1 <= j <= k
    ensures Curve(j) < 1.0 && Curve(k) < 1.0 && Needed(j, Curve(j)) <= Needed(k, Curve(k))
    ensures SizeN(cfg, j, Curve(j)) <= SizeN(cfg, k, Curve(k))
    decreases k - j
  {
    CurveRange(j);
    if j < k {
      NeededStep(j, Curve(j), Curve(j + 1));
      NGrowsWithK(cfg, j + 1, k);
      SizeMonotone(cfg, j, Needed(j, Curve(j)), k, Needed(k, Curve(k)));
    }
  }

  lemma {:induction false} SizeMonotone(cfg: Cfg, j: int, x: real, k: int, y: real)
    requires j <= k && x <= y && cfg.minN <= cfg.maxN
    ensures var n, m := ClampTo(Ceil(x), cfg.minN, cfg.maxN), ClampTo(Ceil(y), cfg.minN, cfg.maxN);
            (if n <= j then j + 1 else n) <= (if m <= k then k + 1 else m)
  {
  }

  // ---- The deadband

  predicate Inside(cfg: Cfg, target: real, ppf: int) {
    var slack := cfg.mtu as real * cfg.deadbandFrac;
    (ppf - 1) as real * cfg.mtu as real - slack < target < (ppf + 1) as real * cfg.mtu as real + slack
  }

  lemma {:induction false} DivCeil(t: real, m: real, c: int)
    requires m > 0.0 && c as real >= t / m && (c - 1) as real < t / m
    ensures (c - 1) as real * m < t <= c as real * m
  {
    var q := t / m;
    assert q * m == t;
    Cancel(c as real, q, m);
    Cancel((c - 1) as real, q, m);
  }

  lemma {:induction false} FreshBounds(cfg: Cfg, target: real)
    requires cfg.mtu > 0 && target >= 0.0
    ensures var p, m := FreshPpf(cfg, target), cfg.mtu as real;
            p >= 1 && target <= p as real * m && (p > 1 ==> (p - 1) as real * m < target)
  {
    var m := cfg.mtu as real;
    var c := Ceil(target / m);
    DivCeil(target, m, c);
    if c < 1 {
      Bigger(c, 1, m);
    }
  }

  lemma {:induction false} Bigger(i: int, j: int, m: real)
    requires i <= j && m > 0.0
    ensures i as real * m <= j as real * m
  {
    Cancel(j as real, i as real, m);
  }

  /** With a deadband, the packets per frame lie within a packet and the slack of
      the target, and they stay exactly as long as the target does. */
  lemma {:induction false} DeadbandIff(cfg: Cfg, target: real, current: int)
    requires cfg.mtu > 0 && cfg.deadbandFrac > 0.0 && target >= 0.0 && current >= 0
    ensures Inside(cfg, target, PacketsPerFrame(cfg, target, current))
    ensures current > 0 ==> (PacketsPerFrame(cfg, target, current) == current <==> Inside(cfg, target, current))
  {
    FreshBounds(cfg, target);
    KeptIff(cfg, target, current, FreshPpf(cfg, target), cfg.mtu as real);
  }

  /** Without a deadband, or before the first decision, it is the number of packets
      that hold the target, at least one. */
  lemma {:induction false} FreshIs(cfg: Cfg, target: real, current: int)
    requires cfg.mtu > 0 && target >= 0.0 && (cfg.deadbandFrac <= 0.0 || current <= 0)
    ensures var p, m := PacketsPerFrame(cfg, target, current), cfg.mtu as real;
            p >= 1 && target <= p as real * m && (p > 1 ==> (p - 1) as real * m < target)
  {
    FreshBounds(cfg, target);
    KeptFresh(cfg, target, current, FreshPpf(cfg, target));
  }

  lemma {:induction false} KeptFresh(cfg: Cfg, target: real, current: int, p: int)
    requires cfg.deadbandFrac <= 0.0 || current <= 0
    ensures Kept(cfg, target, current, p) == p
  {
  }

  lemma {:induction false} KeptIff(cfg: Cfg, target: real, current: int, p: int, m: real)
    requires m == cfg.mtu as real > 0.0 && cfg.deadbandFrac > 0.0 && target >= 0.0 && current >= 0
    requires p >= 1 && target <= p as real * m && (p > 1 ==> (p - 1) as real * m < target)
    ensures Inside(cfg, target, Kept(cfg, target, current, p))
    ensures current > 0 ==> (Kept(cfg, target, current, p) == current <==> Inside(cfg, target, current))
  {
    SlackPositive(cfg);
    StaysIff(p, current, m, target, Slack(cfg));
    if current > 0 {
      Decided(p, current, Kept(cfg, target, current, p), target,
              (current - 1) as real * m - Slack(cfg), (current + 1) as real * m + Slack(cfg));
    }
  }

  /** The choice itself, between the bounds around the current value. */
  lemma {:induction false} Decided(p: int, current: int, chosen: int, target: real, low: real, high: real)
    requires chosen == if (p > current && target < high) || (p < current && target > low) then current else p
    requires (p > current ==> target > low) && (p < current ==> target < high) && (p == current ==> low < target < high)
    ensures chosen == current <==> low < target < high
    ensures chosen == current || chosen == p
  {
  }

  lemma {:induction false} SlackPositive(cfg: Cfg)
    requires cfg.mtu > 0 && cfg.deadbandFrac > 0.0
    ensures Slack(cfg) > 0.0
  {
  }

  lemma {:induction false} StaysIff(p: int, current: int, m: real, target: real, slack: real)
    requires m > 0.0 && slack > 0.0 && target >= 0.0 && p >= 1 && current >= 0
    requires target <= p as real * m && (p > 1 ==> (p - 1) as real * m < target)
    ensures (p - 1) as real * m - slack < target < (p + 1) as real * m + slack
    ensures p > current > 0 ==> target > (current - 1) as real * m - slack
    ensures p < current ==> target < (current + 1) as real * m + slack
  {
    FreshInside(p, m, target, slack);
    if p > current {
      FarAbove(p, current, m, target, slack);
    } else if p < current {
      FarBelow(p, current, m, target, slack);
    }
  }

  lemma {:induction false} FreshInside(p: int, m: real, target: real, slack: real)
    requires m > 0.0 && slack > 0.0 && target >= 0.0 && p >= 1
    requires target <= p as real * m && (p > 1 ==> (p - 1) as real * m < target)
    ensures (p - 1) as real * m - slack < target < (p + 1) as real * m + slack
  {
    Bigger(p, p + 1, m);
  }

  lemma {:induction false} FarAbove(p: int, current: int, m: real, target: real, slack: real)
    requires m > 0.0 && slack > 0.0 && 0 <= current < p && (p > 1 ==> (p - 1) as real * m < target) && target >= 0.0
    ensures current > 0 ==> target > (current - 1) as real * m - slack
  {
    if current > 0 {
      Bigger(current - 1, p - 1, m);
    }
  }

  lemma {:induction false} FarBelow(p: int, current: int, m: real, target: real, slack: real)
    requires m > 0.0 && slack > 0.0 && p < current && target <= p as real * m
    ensures target < (current + 1) as real * m + slack
  {
    Bigger(p, current + 1, m);
  }

  // ---- The boost

  /** The boost keeps k, and gives the least n with the multiplied parity, at least
      one and cut off by max_n; and the redundancy that goes with it. */
  lemma {:induction false} BoostIs(cfg: Cfg, p: Params)
    requires 0 < p.k < cfg.maxN
    ensures var b, parity := Boosted(cfg, p), (if p.n <= p.k then 1 else p.n - p.k) as real * cfg.boostMult;
            && b.k == p.k && p.k < b.n <= cfg.maxN
            && IsLeastWith(b.n, p.k, parity, cfg.maxN)
            && b.redundancy * b.n as real == (b.n - b.k) as real
            && b.ppf == p.ppf && b.avg == p.avg && b.headroom == p.headroom
  {
    BoostLeast(cfg, p);
    Remainder(p.k as real, Boosted(cfg, p).n as real);
  }

  /** `n` is the least above k with the parity, unless max_n cuts it off. */
  predicate IsLeastWith(n: int, k: int, parity: real, maxN: int) {
    if (maxN - k) as real < parity then n == maxN
    else (n - k) as real >= parity && (n == k + 1 || (n - k - 1) as real < parity)
  }

  lemma {:induction false} BoostLeast(cfg: Cfg, p: Params)
    requires p.k < cfg.maxN
    ensures var parity := (if p.n <= p.k then 1 else p.n - p.k) as real * cfg.boostMult;
            p.k < Boosted(cfg, p).n <= cfg.maxN && IsLeastWith(Boosted(cfg, p).n, p.k, parity, cfg.maxN)
  {
    LeastWith(p.k, (if p.n <= p.k then 1 else p.n - p.k) as real * cfg.boostMult, cfg.maxN);
  }

  lemma {:induction false} LeastWith(k: int, parity: real, maxN: int)
    requires k < maxN
    ensures var b := k + Ceil(parity);
            var b := if b > maxN then maxN else b;
            var b := if b <= k then k + 1 else b;
            k < b <= maxN && IsLeastWith(b, k, parity, maxN)
  {
  }

  lemma {:induction false} Remainder(k: real, n: real)
    requires n > 0.0
    ensures (1.0 - k / n) * n == n - k
  {
    assert k / n * n == k;
  }

  /** Exactly when the boost does not lower n. Only the HTTP settings keep the
      multiplier at 1 or more; the command line takes any, and one below 1 can
      lower the parity. */
  lemma {:induction false} BoostKeepsIff(cfg: Cfg, p: Params)
    requires p.k < p.n <= cfg.maxN
    ensures Boosted(cfg, p).n >= p.n <==> (p.n - p.k) as real * cfg.boostMult > (p.n - p.k - 1) as real || p.n == p.k + 1
    ensures cfg.boostMult >= 1.0 ==> Boosted(cfg, p).n >= p.n
  {
    BoostLeast(cfg, p);
    KeepsIff(Boosted(cfg, p).n, p.k, p.n, (p.n - p.k) as real * cfg.boostMult, cfg.maxN);
    if cfg.boostMult >= 1.0 {
      AtLeast((p.n - p.k) as real, cfg.boostMult);
    }
  }

  lemma {:induction false} KeepsIff(b: int, k: int, n: int, parity: real, maxN: int)
    requires k < n <= maxN && k < b <= maxN && IsLeastWith(b, k, parity, maxN)
    ensures b >= n <==> parity > (n - k - 1) as real || n == k + 1
  {
  }

  lemma {:induction false} AtLeast(a: real, m: real)
    requires a >= 0.0 && m >= 1.0
    ensures a * m >= a
  {
    assert a * m - a == a * (m - 1.0);
  }
}
