/** The running statistics of probes/rtp_timing_probe.c (stat_add): count, sum,
    extremes, and Welford's mean and sum of squared deviations over reals. */
module Welford {
  import opened Runs

  datatype Stats = Stats(count: nat, sum: int, min: int, max: int, mean: real, m2: real)

  const EMPTY := Stats(0, 0, U64 - 1, 0, 0.0, 0.0)

  function NewMean(mean: real, v: real, n: nat): real
    requires n > 0
  {
    mean + (v - mean) / n as real
  }

  function NewM2(m2: real, mean: real, v: real, newMean: real): real {
    m2 + (v - mean) * (v - newMean)
  }

  function Added(s: Stats, v: nat): Stats {
    var mean := NewMean(s.mean, v as real, s.count + 1);
    Stats(s.count + 1, (s.sum + v) % U64, if v < s.min then v else s.min, if v > s.max then v else s.max, mean,
          NewM2(s.m2, s.mean, v as real, mean))
  }

  class StatAcc {
    var count: nat
    var sum: int
    var min: int
    var max: int
    var mean: real
    var m2: real

    function Now(): Stats
      reads this
    {
      Stats(count, sum, min, max, mean, m2)
    }

    constructor ()
      ensures Now() == EMPTY
    {
      count, sum, min, max, mean, m2 := 0, 0, U64 - 1, 0, 0.0, 0.0;
    }

    method Add(v: nat)
      modifies this
      ensures Now() == Added(old(Now()), v)
    {
      count := count + 1;
      sum := (sum + v) % U64;
      if v < min { min := v; }
      if v > max { max := v; }
      var delta := v as real - mean;
      mean := mean + delta / count as real;
      var delta2 := v as real - mean;
      m2 := m2 + delta * delta2;
    }
  }

  // ---- Runs

  function After(vs: seq<nat>): Stats {
    if vs == [] then EMPTY else Added(After(Front(vs)), Last(vs))
  }

  function Total(vs: seq<nat>): real {
    if vs == [] then 0.0 else Total(Front(vs)) + Last(vs) as real
  }

  function Squares(vs: seq<nat>): real {
    if vs == [] then 0.0 else Squares(Front(vs)) + Last(vs) as real * Last(vs) as real
  }

  /** The squared deviations from `mu`, summed directly. */
  function Deviations(vs: seq<nat>, mu: real): real {
    if vs == [] then 0.0
    else
      var d := Last(vs) as real - mu;
      Deviations(Front(vs), mu) + d * d
  }

  /** One more value with deviation d from the mean moves the mean by e = d/(n+1). */
  lemma {:induction false} MeanMoves(n: real, mu: real, total: real, v: real, e: real)
    requires n >= 0.0 && n * mu == total && (n + 1.0) * e == v - mu
    ensures (n + 1.0) * (mu + e) == total + v
  {
  }

  lemma {:induction false} SquaresMove(n: real, mu: real, d: real, e: real)
    requires (n + 1.0) * e == d
    ensures (mu + d) * (mu + d) - (n + 1.0) * ((mu + e) * (mu + e)) + n * (mu * mu) == d * (d - e)
  {
    var k := n + 1.0;
    assert k * ((mu + e) * (mu + e)) == k * (mu * mu) + 2.0 * (mu * (k * e)) + (k * e) * e;
    assert (mu + d) * (mu + d) == mu * mu + 2.0 * (mu * d) + d * d;
    assert k * (mu * mu) == n * (mu * mu) + mu * mu;
  }

  predicate SpreadIs(m2: real, squares: real, n: real, mu: real) {
    m2 == squares - n * (mu * mu)
  }

  lemma {:induction false} SpreadMoves(m2: real, squares: real, n: nat, mu: real, v: real, mean: real, more: real)
    requires SpreadIs(m2, squares, n as real, mu) && mean == NewMean(mu, v, n + 1) && more == squares + v * v
    ensures SpreadIs(NewM2(m2, mu, v, mean), more, (n + 1) as real, mean)
  {
    var d, e := v - mu, (v - mu) / (n + 1) as real;
    Shift(d, (n + 1) as real, e);
    SquaresMove(n as real, mu, d, e);
  }

  lemma {:induction false} Shift(d: real, k: real, e: real)
    requires k > 0.0 && e == d / k
    ensures k * e == d
  {
  }

  predicate MeanIs(n: real, mu: real, total: real) {
    n * mu == total
  }

  lemma {:induction false} MeanStep(n: nat, mu: real, total: real, v: real, more: real)
    requires MeanIs(n as real, mu, total) && more == total + v
    ensures MeanIs((n + 1) as real, NewMean(mu, v, n + 1), more)
  {
    var e := (v - mu) / (n + 1) as real;
    Shift(v - mu, (n + 1) as real, e);
    MeanMoves(n as real, mu, total, v, e);
  }

  /** The running values against the sums they stand for. */
  predicate Stands(s: Stats, n: nat, total: real, squares: real) {
    s.count == n && MeanIs(n as real, s.mean, total) && SpreadIs(s.m2, squares, n as real, s.mean)
  }

  lemma {:induction false} StandsOn(s: Stats, n: nat, total: real, squares: real, v: nat, more: real, moreSquares: real)
    requires Stands(s, n, total, squares) && more == total + v as real && moreSquares == squares + v as real * v as real
    ensures Stands(Added(s, v), n + 1, more, moreSquares)
  {
    MeanStep(n, s.mean, total, v as real, more);
    SpreadMoves(s.m2, squares, n, s.mean, v as real, NewMean(s.mean, v as real, n + 1), moreSquares);
  }

  lemma {:induction false} StandsForSums(vs: seq<nat>)
    ensures Stands(After(vs), |vs|, Total(vs), Squares(vs))
  {
    if vs != [] {
      var front, v := Front(vs), Last(vs);
      StandsForSums(front);
      StandsOn(After(front), |front|, Total(front), Squares(front), v, Total(vs), Squares(vs));
    } else {
      StandsEmpty();
    }
  }

  lemma {:induction false} StandsEmpty()
    ensures Stands(EMPTY, 0, 0.0, 0.0)
  {
  }

  predicate DeviationIs(dev: real, squares: real, total: real, n: real, mu: real) {
    dev == squares - 2.0 * (mu * total) + n * (mu * mu)
  }

  lemma {:induction false} DeviationStep(dev: real, squares: real, total: real, n: real, mu: real, v: real,
                                         dev1: real, squares1: real, total1: real)
    requires DeviationIs(dev, squares, total, n, mu)
    requires dev1 == dev + (v - mu) * (v - mu) && squares1 == squares + v * v && total1 == total + v
    ensures DeviationIs(dev1, squares1, total1, n + 1.0, mu)
  {
    assert (v - mu) * (v - mu) == v * v - 2.0 * (mu * v) + mu * mu;
    assert mu * total1 == mu * total + mu * v;
    assert (n + 1.0) * (mu * mu) == n * (mu * mu) + mu * mu;
  }

  lemma {:induction false} DeviationsExpand(vs: seq<nat>, mu: real)
    ensures DeviationIs(Deviations(vs, mu), Squares(vs), Total(vs), |vs| as real, mu)
  {
    if vs != [] {
      var front, v := Front(vs), Last(vs);
      DeviationsExpand(front, mu);
      DeviationStep(Deviations(front, mu), Squares(front), Total(front), |front| as real, mu, v as real,
                    Deviations(vs, mu), Squares(vs), Total(vs));
    }
  }

  lemma {:induction false} SpreadIsDeviation(m2: real, dev: real, squares: real, total: real, n: real, mu: real)
    requires SpreadIs(m2, squares, n, mu) && MeanIs(n, mu, total) && DeviationIs(dev, squares, total, n, mu)
    ensures m2 == dev
  {
    assert mu * total == n * (mu * mu);
  }

  /** After any values the running mean is their total over their number, and m2
      the sum of their squared deviations from that mean. */
  lemma {:induction false} OnePassIsTwoPass(vs: seq<nat>)
    requires vs != []
    ensures var s := After(vs);
            && s.count == |vs| && s.mean == Total(vs) / |vs| as real
            && s.m2 == Deviations(vs, Total(vs) / |vs| as real)
  {
    var mu := Total(vs) / |vs| as real;
    StandsForSums(vs);
    Quotient(|vs| as real, After(vs).mean, Total(vs));
    DeviationsExpand(vs, mu);
    SpreadIsDeviation(After(vs).m2, Deviations(vs, mu), Squares(vs), Total(vs), |vs| as real, mu);
  }

  lemma {:induction false} Quotient(n: real, mu: real, total: real)
    requires n > 0.0 && n * mu == total
    ensures mu == total / n
  {
    var q := total / n;
    assert n * q == total;
    if mu < q {
      Grows(mu, q, n);
      assert false;
    } else if mu > q {
      Grows(q, mu, n);
      assert false;
    }
  }

  lemma {:induction false} Grows(a: real, b: real, n: real)
    requires a < b && n > 0.0
    ensures n * a < n * b
  {
  }

  /** The extremes are those of the values. */
  lemma {:induction false} ExtremesHold(vs: seq<nat>)
    requires vs != [] && forall i :: 0 <= i < |vs| ==> vs[i] < U64
    ensures var s := After(vs);
            && (exists i :: 0 <= i < |vs| && vs[i] == s.min) && (exists i :: 0 <= i < |vs| && vs[i] == s.max)
            && forall i :: 0 <= i < |vs| ==> s.min <= vs[i] <= s.max
  {
    var front := Front(vs);
    if front != [] {
      ExtremesHold(front);
      assert forall i :: 0 <= i < |front| ==> front[i] == vs[i];
    } else {
      assert After(front) == EMPTY;
      assert vs[0] == After(vs).min && vs[0] == After(vs).max;
    }
  }
}
