/** The trailing-window trend features of telemetry/wfb_schema.py (TrendState) and
    telemetry/tier1_trend.h. Floats are reals. */
module TrendSpec {
  import opened Runs
  import opened Rings

  /** One record's reduced features; `rssi` is the sentinel on a dropout. */
  datatype Rec = Rec(rssi: real, all: real, lost: real, fec: real, uniq: real)

  datatype Entry = Entry(rssi: real, lost: real, uniq: real, fec: real, dropout: real)

  datatype Trend = Trend(buf: seq<Entry>, sinceLoss: real)

  const SINCE_CAP := 200.0
  const START := Trend([], SINCE_CAP)

  predicate Lossy(r: Rec) {
    r.lost > 0.0 || r.all == 0.0
  }

  function EntryOf(r: Rec): Entry {
    Entry(r.rssi, r.lost, r.uniq, r.fec, if r.all == 0.0 then 1.0 else 0.0)
  }

  function SinceOn(since: real, r: Rec): real {
    if Lossy(r) then 0.0 else if since + 1.0 < SINCE_CAP then since + 1.0 else SINCE_CAP
  }

  function Pushed(window: nat, t: Trend, r: Rec): Trend {
    Trend(LastOf(t.buf + [EntryOf(r)], window), SinceOn(t.sinceLoss, r))
  }

  // ---- Sums over the window

  datatype Column = Rssi | Lost | Uniq | Fec | Dropout

  function Cell(e: Entry, c: Column): real {
    match c
    case Rssi => e.rssi
    case Lost => e.lost
    case Uniq => e.uniq
    case Fec => e.fec
    case Dropout => e.dropout
  }

  /** The sum of the first `k` entries. */
  function Sum(buf: seq<Entry>, c: Column, k: nat): real
    requires k <= |buf|
  {
    if k == 0 then 0.0 else Sum(buf, c, k - 1) + Cell(buf[k - 1], c)
  }

  function SumAll(buf: seq<Entry>, c: Column): real {
    Sum(buf, c, |buf|)
  }

  function XBar(n: nat): real {
    (n - 1) as real / 2.0
  }

  function YBar(buf: seq<Entry>): real
    requires buf != []
  {
    SumAll(buf, Rssi) / |buf| as real
  }

  /** Position `k` measured from the middle. */
  function X(n: nat, k: int): real {
    k as real - XBar(n)
  }

  function Num(buf: seq<Entry>, k: nat): real
    requires k <= |buf|
  {
    if k == 0 then 0.0 else Num(buf, k - 1) + X(|buf|, k - 1) * (buf[k - 1].rssi - YBar(buf))
  }

  function Den(n: nat, k: nat): real {
    if k == 0 then 0.0 else Den(n, k - 1) + X(n, k - 1) * X(n, k - 1)
  }

  /** C guards the division by the denominator, Python by the length. */
  function SlopeC(buf: seq<Entry>): real
    requires buf != []
  {
    var den := Den(|buf|, |buf|);
    if den != 0.0 then Num(buf, |buf|) / den else 0.0
  }

  function SlopePy(buf: seq<Entry>): real {
    if |buf| < 2 then 0.0
    else
      var den := Den(|buf|, |buf|);
      if den == 0.0 then 0.0 else Num(buf, |buf|) / den
  }

  function LossRateC(buf: seq<Entry>): real {
    var lost, uniq := SumAll(buf, Lost), SumAll(buf, Uniq);
    if lost + uniq > 0.0 then lost / (lost + uniq) else 0.0
  }

  function LossRatePy(buf: seq<Entry>): real {
    var lost, uniq := SumAll(buf, Lost), SumAll(buf, Uniq);
    if lost + uniq != 0.0 then lost / (lost + uniq) else 0.0
  }

  /** A sum of -1 packets has no rate; it does not occur with real counters. */
  function FecRate(buf: seq<Entry>): real {
    var uniq := SumAll(buf, Uniq);
    if uniq + 1.0 != 0.0 then SumAll(buf, Fec) / (uniq + 1.0) else 0.0
  }

  /** The 11 features of a record, given the window it closes. */
  function Features(r: Rec, t: Trend, slope: real, lossRate: real): seq<real>
    requires t.buf != []
  {
    var n := |t.buf| as real;
    [r.rssi, r.all, r.lost, r.fec, r.uniq, slope, YBar(t.buf), lossRate, FecRate(t.buf), t.sinceLoss,
     SumAll(t.buf, Dropout) / n]
  }

  function FeaturesC(r: Rec, t: Trend): seq<real>
    requires t.buf != []
  {
    Features(r, t, SlopeC(t.buf), LossRateC(t.buf))
  }

  function FeaturesPy(r: Rec, t: Trend): seq<real>
    requires t.buf != []
  {
    Features(r, t, SlopePy(t.buf), LossRatePy(t.buf))
  }

  // ---- The slope

  lemma {:induction false} DenGrows(n: nat, k: nat)
    requires 1 <= k
    ensures Den(n, k) >= X(n, 0) * X(n, 0)
  {
    if k > 1 {
      DenGrows(n, k - 1);
    }
  }

  /** The denominator is zero exactly for fewer than two entries. */
  lemma {:induction false} DenZeroIff(n: nat)
    ensures Den(n, n) == 0.0 <==> n < 2
    ensures Den(n, n) >= 0.0
  {
    if n >= 2 {
      DenGrows(n, n);
      assert X(n, 0) < 0.0;
    } else if n == 1 {
      assert Den(1, 0) == 0.0;
    }
  }

  lemma {:induction false} XSum(n: nat, k: nat) returns (sum: real)
    ensures sum == XTotal(n, k) == k as real * (k as real - 1.0) / 2.0 - k as real * XBar(n)
  {
    if k > 0 {
      var before := XSum(n, k - 1);
      sum := before + X(n, k - 1);
    } else {
      sum := 0.0;
    }
  }

  function XTotal(n: nat, k: nat): real {
    if k == 0 then 0.0 else XTotal(n, k - 1) + X(n, k - 1)
  }

  // ---- Least squares

  /** How far each entry is from the line through `p` at position 0 with slope `m`. */
  function Misses(buf: seq<Entry>, p: real, m: real): seq<real> {
    seq(|buf|, i requires 0 <= i < |buf| => buf[i].rssi - (p + m * i as real))
  }

  function Total(r: seq<real>, k: nat): real
    requires k <= |r|
  {
    if k == 0 then 0.0 else Total(r, k - 1) + r[k - 1]
  }

  /** Weighted by position. */
  function Moment(r: seq<real>, k: nat): real
    requires k <= |r|
  {
    if k == 0 then 0.0 else Moment(r, k - 1) + r[k - 1] * (k - 1) as real
  }

  /** Weighted by distance from the middle. */
  function Torque(r: seq<real>, k: nat): real
    requires k <= |r|
  {
    if k == 0 then 0.0 else Torque(r, k - 1) + r[k - 1] * X(|r|, k - 1)
  }

  function Squares(r: seq<real>, k: nat): real
    requires k <= |r|
  {
    if k == 0 then 0.0 else Squares(r, k - 1) + r[k - 1] * r[k - 1]
  }

  function SquaredError(buf: seq<Entry>, p: real, m: real): real {
    Squares(Misses(buf, p, m), |buf|)
  }

  lemma {:induction false} Distribute(u: real, s: real, r: real)
    ensures u * (s + r) == u * s + u * r
  {
  }

  lemma {:induction false} Minused(b: real, m: real, v: real, z: real)
    requires b == m - v
    ensures b * z == m * z - v * z
  {
  }

  /** A squared error e against another q, given the shift (u, v) between the
      lines and the sum and moment of the misses. */
  predicate Costs(e: real, q: real, u: real, sum: real, v: real, moment: real) {
    e >= q + 2.0 * (u * sum) + 2.0 * (v * moment)
  }

  /** The miss `r` at position z becomes `e` when the line moves by (u, v). */
  predicate Shifted(e: real, r: real, u: real, v: real, z: real) {
    e == r + (u + v * z)
  }

  lemma {:induction false} LineMoves(y: real, p: real, m: real, a: real, b: real, u: real, v: real, z: real)
    requires a == p - u && b == m - v
    ensures Shifted(y - (a + b * z), y - (p + m * z), u, v, z)
  {
    Minused(b, m, v, z);
  }

  /** Moving a line by (u, v) costs a sum of squares and two cross terms. */
  lemma {:induction false} ErrorSplits(r: seq<real>, e: seq<real>, u: real, v: real, k: nat)
    requires k <= |r| == |e| && forall i :: 0 <= i < k ==> Shifted(e[i], r[i], u, v, i as real)
    ensures Costs(Squares(e, k), Squares(r, k), u, Total(r, k), v, Moment(r, k))
  {
    if k > 0 {
      ErrorSplits(r, e, u, v, k - 1);
      assert Shifted(e[k - 1], r[k - 1], u, v, (k - 1) as real);
      CostsMore(Squares(e, k - 1), Squares(r, k - 1), u, Total(r, k - 1), v, Moment(r, k - 1),
                r[k - 1], e[k - 1], (k - 1) as real, Squares(e, k), Squares(r, k), Total(r, k), Moment(r, k));
    }
  }

  lemma {:induction false} CostsMore(e0: real, q0: real, u: real, sum: real, v: real, moment: real,
                                     r: real, e: real, z: real, e1: real, q1: real, sum1: real, moment1: real)
    requires Costs(e0, q0, u, sum, v, moment) && Shifted(e, r, u, v, z)
    requires e1 == e0 + e * e && q1 == q0 + r * r && sum1 == sum + r && moment1 == moment + r * z
    ensures Costs(e1, q1, u, sum1, v, moment1)
  {
    Square(r, u, v, z, e);
    Distribute(u, sum, r);
    Distribute(v, moment, r * z);
  }

  lemma {:induction false} Square(r: real, u: real, v: real, z: real, e: real)
    requires Shifted(e, r, u, v, z)
    ensures e * e >= r * r + 2.0 * (u * r) + 2.0 * (v * (r * z))
  {
    var d := u + v * z;
    Binomial(r, d);
    Distribute(r, u, v * z);
    assert r * (v * z) == v * (r * z);
  }

  lemma {:induction false} Binomial(r: real, d: real)
    ensures (r + d) * (r + d) >= r * r + 2.0 * (r * d)
  {
    assert d * d >= 0.0;
  }

  // ---- The fitted line

  /** The residual at distance x from the middle, y above the mean. */
  predicate IsResidual(r: real, y: real, m: real, x: real) {
    r == y - m * x
  }

  lemma {:induction false} MissIsResidual(y: real, yb: real, m: real, z: real, xb: real, p: real)
    requires p == yb - m * xb
    ensures IsResidual(y - (p + m * z), y - yb, m, z - xb)
  {
    Minused(z - xb, z, xb, m);
  }

  predicate Fitted(buf: seq<Entry>, r: seq<real>, m: real, k: nat)
    requires k <= |r| == |buf| && buf != []
  {
    forall i :: 0 <= i < k ==> IsResidual(r[i], buf[i].rssi - YBar(buf), m, X(|buf|, i))
  }

  predicate TotalForm(t: real, sum: real, k: real, yb: real, m: real, xt: real) {
    t == sum - k * yb - m * xt
  }

  lemma {:induction false} TotalStep(t: real, sum: real, k: real, yb: real, m: real, xt: real, r: real, y: real, x: real,
                                     t1: real, sum1: real, xt1: real)
    requires TotalForm(t, sum, k, yb, m, xt) && IsResidual(r, y - yb, m, x)
    requires t1 == t + r && sum1 == sum + y && xt1 == xt + x
    ensures TotalForm(t1, sum1, k + 1.0, yb, m, xt1)
  {
    Distribute(m, xt, x);
    Distribute(yb, k, 1.0);
  }

  lemma {:induction false} TotalIs(buf: seq<Entry>, r: seq<real>, m: real, k: nat)
    requires k <= |r| == |buf| && buf != [] && Fitted(buf, r, m, k)
    ensures TotalForm(Total(r, k), Sum(buf, Rssi, k), k as real, YBar(buf), m, XTotal(|buf|, k))
  {
    if k > 0 {
      TotalIs(buf, r, m, k - 1);
      TotalStep(Total(r, k - 1), Sum(buf, Rssi, k - 1), (k - 1) as real, YBar(buf), m, XTotal(|buf|, k - 1), r[k - 1],
                buf[k - 1].rssi, X(|buf|, k - 1), Total(r, k), Sum(buf, Rssi, k), XTotal(|buf|, k));
    }
  }

  predicate Minus(r: real, n: real, m: real, d: real) {
    r == n - m * d
  }

  lemma {:induction false} TorqueStep(m: real, x: real, y: real, res: real, n: real, d: real, r: real,
                                      n1: real, d1: real, r1: real)
    requires IsResidual(res, y, m, x) && Minus(r, n, m, d)
    requires n1 == n + x * y && d1 == d + x * x && r1 == r + res * x
    ensures Minus(r1, n1, m, d1)
  {
    Distribute(m, d, x * x);
    Minused(res, y, m * x, x);
  }

  lemma {:induction false} TorqueIs(buf: seq<Entry>, r: seq<real>, m: real, k: nat)
    requires k <= |r| == |buf| && buf != [] && Fitted(buf, r, m, k)
    ensures Minus(Torque(r, k), Num(buf, k), m, Den(|buf|, k))
  {
    if k > 0 {
      TorqueIs(buf, r, m, k - 1);
      var x, y := X(|buf|, k - 1), buf[k - 1].rssi - YBar(buf);
      assert IsResidual(r[k - 1], y, m, x);
      TorqueStep(m, x, y, r[k - 1], Num(buf, k - 1), Den(|buf|, k - 1), Torque(r, k - 1),
                 Num(buf, k), Den(|buf|, k), Torque(r, k));
    }
  }

  predicate Plus(mo: real, t: real, xb: real, s: real) {
    mo == t + xb * s
  }

  lemma {:induction false} MomentStep(xb: real, z: real, x: real, r: real, s: real, t: real, mo: real,
                                      s1: real, t1: real, mo1: real)
    requires x == z - xb && Plus(mo, t, xb, s) && s1 == s + r && t1 == t + r * x && mo1 == mo + r * z
    ensures Plus(mo1, t1, xb, s1)
  {
    Distribute(xb, s, r);
    Minused(x, z, xb, r);
  }

  /** Moments about position 0 and about the middle. */
  lemma {:induction false} MomentIs(r: seq<real>, k: nat)
    requires k <= |r|
    ensures Plus(Moment(r, k), Torque(r, k), XBar(|r|), Total(r, k))
  {
    if k > 0 {
      MomentIs(r, k - 1);
      MomentStep(XBar(|r|), (k - 1) as real, X(|r|, k - 1), r[k - 1], Total(r, k - 1), Torque(r, k - 1), Moment(r, k - 1),
                 Total(r, k), Torque(r, k), Moment(r, k));
    }
  }

  lemma {:induction false} Quotient(a: real, b: real)
    requires b != 0.0
    ensures a / b * b == a && b * (a / b) == a
  {
  }

  lemma {:induction false} Centred(n: nat)
    ensures XTotal(n, n) == 0.0
  {
    var total := XSum(n, n);
  }

  lemma {:induction false} Vanishes(t: real, sum: real, k: real, yb: real, m: real, xt: real)
    requires TotalForm(t, sum, k, yb, m, xt) && sum == k * yb && xt == 0.0
    ensures t == 0.0
  {
  }

  /** The misses of the fitted line cancel, and so do their moments. */
  lemma {:induction false} MissesCancel(buf: seq<Entry>, r: seq<real>, m: real)
    requires |buf| == |r| >= 2 && m == SlopePy(buf) && Fitted(buf, r, m, |r|)
    ensures Total(r, |r|) == 0.0 && Moment(r, |r|) == 0.0
  {
    var n := |buf|;
    DenZeroIff(n);
    Quotient(Num(buf, n), Den(n, n));
    Quotient(SumAll(buf, Rssi), n as real);
    Centred(n);
    TotalIs(buf, r, m, n);
    Vanishes(Total(r, n), Sum(buf, Rssi, n), n as real, YBar(buf), m, XTotal(n, n));
    TorqueIs(buf, r, m, n);
    MomentIs(r, n);
  }

  lemma {:induction false} SlopesAgree(buf: seq<Entry>)
    requires buf != []
    ensures SlopeC(buf) == SlopePy(buf)
  {
    DenZeroIff(|buf|);
  }

  /** The slope, with the line through the means, has the least squared error of
      all lines. */
  lemma {:induction false} SlopeIsLeastSquares(buf: seq<Entry>, m: real, p: real, a: real, b: real)
    requires |buf| >= 2 && m == SlopePy(buf) && p == YBar(buf) - m * XBar(|buf|)
    ensures SquaredError(buf, a, b) >= SquaredError(buf, p, m)
  {
    var r, e, u, v := Misses(buf, p, m), Misses(buf, a, b), p - a, m - b;
    forall i | 0 <= i < |buf|
      ensures Shifted(e[i], r[i], u, v, i as real) && IsResidual(r[i], buf[i].rssi - YBar(buf), m, X(|buf|, i))
    {
      LineMoves(buf[i].rssi, p, m, a, b, u, v, i as real);
      MissIsResidual(buf[i].rssi, YBar(buf), m, i as real, XBar(|buf|), p);
    }
    MissesCancel(buf, r, m);
    ErrorSplits(r, e, u, v, |r|);
    NoCross(Squares(e, |r|), Squares(r, |r|), u, Total(r, |r|), v, Moment(r, |r|));
  }

  lemma {:induction false} NoCross(e: real, q: real, u: real, sum: real, v: real, moment: real)
    requires Costs(e, q, u, sum, v, moment) && sum == 0.0 && moment == 0.0
    ensures e >= q
  {
  }

  // ---- Where the two agree

  /** The loss rates differ exactly for a negative total with lost packets. */
  lemma {:induction false} LossRatesAgreeIff(buf: seq<Entry>)
    ensures LossRateC(buf) == LossRatePy(buf) <==>
              SumAll(buf, Lost) + SumAll(buf, Uniq) >= 0.0 || SumAll(buf, Lost) == 0.0
  {
  }

  predicate Counters(buf: seq<Entry>) {
    forall i :: 0 <= i < |buf| ==> buf[i].lost >= 0.0 && buf[i].uniq >= 0.0
  }

  lemma {:induction false} SumsPositive(buf: seq<Entry>, k: nat)
    requires k <= |buf| && Counters(buf)
    ensures Sum(buf, Lost, k) >= 0.0 && Sum(buf, Uniq, k) >= 0.0
  {
    if k > 0 {
      SumsPositive(buf, k - 1);
    }
  }

  lemma {:induction false} FeaturesAgree(r: Rec, t: Trend)
    requires t.buf != [] && Counters(t.buf)
    ensures FeaturesC(r, t) == FeaturesPy(r, t)
  {
    SlopesAgree(t.buf);
    SumsPositive(t.buf, |t.buf|);
    LossRatesAgreeIff(t.buf);
  }

  // ---- Runs

  function After(window: nat, run: seq<Rec>): Trend {
    if run == [] then START else Pushed(window, After(window, Front(run)), Last(run))
  }

  function Entries(run: seq<Rec>): seq<Entry> {
    seq(|run|, i requires 0 <= i < |run| => EntryOf(run[i]))
  }

  /** How many of the latest records are free of loss and dropout. */
  function Calm(run: seq<Rec>): (n: nat)
    ensures n <= |run|
  {
    if run == [] || Lossy(Last(run)) then 0 else Calm(Front(run)) + 1
  }

  lemma {:induction false} WindowIsTail(window: nat, run: seq<Rec>)
    requires window > 0
    ensures After(window, run).buf == LastOf(Entries(run), window)
  {
    if run != [] {
      WindowIsTail(window, Front(run));
      assert Entries(run) == Entries(Front(run)) + [EntryOf(Last(run))];
    }
  }

  /** Records since the last loss, capped; the cap when there was none. */
  lemma {:induction false} SinceIsCalm(window: nat, run: seq<Rec>)
    ensures After(window, run).sinceLoss
         == if Calm(run) < |run| && Calm(run) < 200 then Calm(run) as real else SINCE_CAP
  {
    if run != [] {
      SinceIsCalm(window, Front(run));
    }
  }

  // ---- The rates, told by the run

  /** The sum of a column over the last `n` records. */
  function TailSum(run: seq<Rec>, c: Column, n: nat): real {
    if n == 0 || run == [] then 0.0
    else
      var r := Last(run);
      TailSum(Front(run), c, n - 1)
        + match c
          case Rssi => r.rssi
          case Lost => r.lost
          case Uniq => r.uniq
          case Fec => r.fec
          case Dropout => if r.all == 0.0 then 1.0 else 0.0
  }

  lemma {:induction false} SumIsTail(run: seq<Rec>, c: Column, n: nat, buf: seq<Entry>)
    requires n <= |run| && buf == LastOf(Entries(run), n)
    ensures SumAll(buf, c) == TailSum(run, c, n)
  {
    if n > 0 {
      var before := LastOf(Entries(Front(run)), n - 1);
      SumIsTail(Front(run), c, n - 1, before);
      TailGrows(run, n);
      SumAppend(buf, before, EntryOf(Last(run)), c, TailSum(Front(run), c, n - 1));
      TailSumStep(run, c, n, TailSum(Front(run), c, n - 1));
    }
  }

  lemma {:induction false} TailSumStep(run: seq<Rec>, c: Column, n: nat, before: real)
    requires 0 < n <= |run| && before == TailSum(Front(run), c, n - 1)
    ensures TailSum(run, c, n) == before + Cell(EntryOf(Last(run)), c)
  {
  }

  lemma {:induction false} TailGrows(run: seq<Rec>, n: nat)
    requires 0 < n <= |run|
    ensures LastOf(Entries(run), n) == LastOf(Entries(Front(run)), n - 1) + [EntryOf(Last(run))]
  {
    assert Entries(run) == Entries(Front(run)) + [EntryOf(Last(run))];
  }

  lemma {:induction false} SumAppend(buf: seq<Entry>, before: seq<Entry>, e: Entry, c: Column, sum: real)
    requires buf == before + [e] && SumAll(before, c) == sum
    ensures SumAll(buf, c) == sum + Cell(e, c)
  {
    SumPrefix(before, [e], c, |before|);
  }

  lemma {:induction false} SumPrefix(a: seq<Entry>, b: seq<Entry>, c: Column, k: nat)
    requires k <= |a|
    ensures Sum(a + b, c, k) == Sum(a, c, k)
  {
    if k > 0 {
      SumPrefix(a, b, c, k - 1);
    }
  }

  /** `rate` times the whole is the part. */
  predicate IsShare(rate: real, part: real, whole: real) {
    rate * whole == part
  }

  function Shown(window: nat, run: seq<Rec>): nat {
    if |run| < window then |run| else window
  }

  /** The features that are rates, for non-negative counters: the mean level, lost
      over lost and received, recovered over received and one, and the share of
      dropouts, each over exactly the last `window` records of the run. */
  lemma {:induction false} RatesOfTail(window: nat, run: seq<Rec>)
    requires window > 0 && run != []
    requires forall i :: 0 <= i < |run| ==> run[i].lost >= 0.0 && run[i].uniq >= 0.0
    ensures After(window, run).buf != []
    ensures var out, n := FeaturesC(Last(run), After(window, run)), Shown(window, run);
            var lost, uniq := TailSum(run, Lost, n), TailSum(run, Uniq, n);
            && |out| == 11 && out[5] == SlopePy(After(window, run).buf)
            && out[..5] == [Last(run).rssi, Last(run).all, Last(run).lost, Last(run).fec, Last(run).uniq]
            && IsShare(out[6], TailSum(run, Rssi, n), n as real)
            && IsShare(out[7], lost, lost + uniq) && (lost + uniq == 0.0 ==> out[7] == 0.0)
            && IsShare(out[8], TailSum(run, Fec, n), uniq + 1.0)
            && out[9] == (if Calm(run) < |run| && Calm(run) < 200 then Calm(run) as real else 200.0)
            && IsShare(out[10], TailSum(run, Dropout, n), n as real)
  {
    var t, n := After(window, run), Shown(window, run);
    SinceIsCalm(window, run);
    TailSums(window, run, t.buf);
    SumsPositive(t.buf, |t.buf|);
    Shares(t.buf, n as real);
    RateFeatures(Last(run), t);
    SlopesAgree(t.buf);
  }

  lemma {:induction false} TailSums(window: nat, run: seq<Rec>, buf: seq<Entry>)
    requires window > 0 && run != [] && buf == After(window, run).buf
    ensures |buf| == Shown(window, run) > 0
    ensures forall c: Column :: SumAll(buf, c) == TailSum(run, c, Shown(window, run))
    ensures (forall i :: 0 <= i < |run| ==> run[i].lost >= 0.0 && run[i].uniq >= 0.0) ==> Counters(buf)
  {
    WindowIsTail(window, run);
    assert LastOf(Entries(run), window) == LastOf(Entries(run), Shown(window, run));
    forall c: Column ensures SumAll(buf, c) == TailSum(run, c, Shown(window, run)) {
      SumIsTail(run, c, Shown(window, run), buf);
    }
  }

  lemma {:induction false} RateFeatures(r: Rec, t: Trend)
    requires t.buf != []
    ensures var out := FeaturesC(r, t);
            && |out| == 11 && out[..5] == [r.rssi, r.all, r.lost, r.fec, r.uniq] && out[5] == SlopeC(t.buf)
            && out[6] == YBar(t.buf) && out[7] == LossRateC(t.buf) && out[8] == FecRate(t.buf) && out[9] == t.sinceLoss
            && out[10] == SumAll(t.buf, Dropout) / |t.buf| as real
  {
  }

  lemma {:induction false} Shares(buf: seq<Entry>, n: real)
    requires buf != [] && n == |buf| as real && SumAll(buf, Lost) >= 0.0 && SumAll(buf, Uniq) >= 0.0
    ensures IsShare(YBar(buf), SumAll(buf, Rssi), n) && IsShare(SumAll(buf, Dropout) / |buf| as real, SumAll(buf, Dropout), n)
    ensures var lost, uniq := SumAll(buf, Lost), SumAll(buf, Uniq);
            && IsShare(LossRateC(buf), lost, lost + uniq) && (lost + uniq == 0.0 ==> LossRateC(buf) == 0.0)
            && IsShare(FecRate(buf), SumAll(buf, Fec), uniq + 1.0)
  {
    Share(SumAll(buf, Rssi), n);
    Share(SumAll(buf, Dropout), n);
    var lost, uniq := SumAll(buf, Lost), SumAll(buf, Uniq);
    Share(SumAll(buf, Fec), uniq + 1.0);
    if lost + uniq > 0.0 {
      Share(lost, lost + uniq);
    }
  }

  lemma {:induction false} Share(a: real, b: real)
    requires b > 0.0
    ensures IsShare(a / b, a, b)
  {
  }

  // ---- The two implementations

  /** For any pushes with non-negative counters the two implementations give the
      same 11 features, over exactly the last `window` records. */
  lemma {:induction false} TrendRefines(window: nat, run: seq<Rec>)
    requires window > 0 && run != []
    requires forall i :: 0 <= i < |run| ==> run[i].lost >= 0.0 && run[i].uniq >= 0.0
    ensures var t := After(window, run);
            && t.buf == LastOf(Entries(run), window) && t.buf != []
            && FeaturesC(Last(run), t) == FeaturesPy(Last(run), t)
  {
    WindowIsTail(window, run);
    FeaturesAgree(Last(run), After(window, run));
  }
}
