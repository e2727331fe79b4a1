/** The two trend extractors: the ring of telemetry/tier1_trend.h and the deque of
    telemetry/wfb_schema.py. */
module Trends {
  import opened Rings
  import opened TrendSpec

  /** tier1_trend.h. Its five parallel arrays are one array of entries here. */
  class TrendRing {
    const slots: array<Entry>
    var head: int
    var n: int
    var sinceLoss: real

    ghost predicate Valid()
      reads this
    {
      slots.Length > 0 && 0 <= head < slots.Length && 0 <= n <= slots.Length
    }

    ghost function Now(): Trend
      requires Valid()
      reads this, slots
    {
      Trend(RingView(slots[..], head, n), sinceLoss)
    }

    constructor (window: nat)
      requires window > 0
      ensures Valid() && fresh(slots) && slots.Length == window && Now() == START
    {
      slots := new Entry[window](_ => Entry(0.0, 0.0, 0.0, 0.0, 0.0));
      head, n, sinceLoss := 0, 0, SINCE_CAP;
    }

    method Store(r: Rec)
      requires Valid()
      modifies this, slots
      ensures Valid() && Now() == Pushed(slots.Length, old(Now()), r) && n > 0
    {
      if Lossy(r) {
        sinceLoss := 0.0;
      } else if sinceLoss + 1.0 < SINCE_CAP {
        sinceLoss := sinceLoss + 1.0;
      } else {
        sinceLoss := SINCE_CAP;
      }
      RingPushLast(slots[..], head, n, EntryOf(r));
      slots[head] := EntryOf(r);
      head := (head + 1) % slots.Length;
      if n < slots.Length {
        n := n + 1;
      }
    }

    /** The sums over the ring, oldest first. */
    method Totals() returns (rsum: real, lsum: real, usum: real, fsum: real, dsum: real)
      requires Valid()
      ensures var b := Now().buf;
              rsum == SumAll(b, Rssi) && lsum == SumAll(b, Lost) && usum == SumAll(b, Uniq)
              && fsum == SumAll(b, Fec) && dsum == SumAll(b, Dropout)
    {
      ghost var b := Now().buf;
      rsum, lsum, usum, fsum, dsum := 0.0, 0.0, 0.0, 0.0, 0.0;
      for k := 0 to n
        invariant rsum == Sum(b, Rssi, k) && lsum == Sum(b, Lost, k) && usum == Sum(b, Uniq, k)
        invariant fsum == Sum(b, Fec, k) && dsum == Sum(b, Dropout, k)
      {
        var e := At(k);
        rsum := rsum + e.rssi;
        lsum := lsum + e.lost;
        usum := usum + e.uniq;
        fsum := fsum + e.fec;
        dsum := dsum + e.dropout;
      }
    }

    /** Entry `k` of the ring: the modular index of the source. */
    method At(k: int) returns (e: Entry)
      requires Valid() && 0 <= k < n
      ensures e == Now().buf[k]
    {
      var idx := (head - n + k + 2 * slots.Length) % slots.Length;
      TwiceAround(head - n + k + slots.Length, slots.Length);
      e := slots[idx];
    }

    method Slope(ybar: real) returns (slope: real)
      requires Valid() && n > 0 && ybar == YBar(Now().buf)
      ensures slope == SlopeC(Now().buf)
    {
      ghost var b := Now().buf;
      var xbar := (n - 1) as real / 2.0;
      var num, den := 0.0, 0.0;
      for k := 0 to n
        invariant num == Num(b, k) && den == Den(n, k)
      {
        var e := At(k);
        var x := k as real - xbar;
        assert x == X(n, k);
        num := num + x * (e.rssi - ybar);
        den := den + x * x;
      }
      slope := if den != 0.0 then num / den else 0.0;
    }

    /** The trend features, from the sums over the ring. */
    method Trends() returns (slope: real, mean: real, lossRate: real, fecRate: real, dropoutFrac: real)
      requires Valid() && n > 0
      ensures var t := Now();
              && slope == SlopeC(t.buf) && mean == YBar(t.buf) && lossRate == LossRateC(t.buf)
              && fecRate == FecRate(t.buf) && dropoutFrac == SumAll(t.buf, Dropout) / |t.buf| as real
    {
      var rsum, lsum, usum, fsum, dsum := Totals();
      mean := rsum / n as real;
      slope := Slope(mean);
      lossRate := if lsum + usum > 0.0 then lsum / (lsum + usum) else 0.0;
      fecRate := if usum + 1.0 != 0.0 then fsum / (usum + 1.0) else 0.0;
      dropoutFrac := dsum / n as real;
    }

    /** t1_trend_push. */
    method Push(r: Rec, out: array<real>)
      requires Valid() && out.Length == 11
      modifies this, slots, out
      ensures Valid() && Now() == Pushed(slots.Length, old(Now()), r) && n > 0
      ensures out[..] == FeaturesC(r, Now())
    {
      Store(r);
      var slope, mean, lossRate, fecRate, dropoutFrac := Trends();
      Write5(out, 0, r.rssi, r.all, r.lost, r.fec, r.uniq);
      Write5(out, 5, slope, mean, lossRate, fecRate, sinceLoss);
      out[10] := dropoutFrac;
      AreFeatures(r, Now(), out[..]);
    }
  }

  lemma {:induction false} AreFeatures(r: Rec, t: Trend, v: seq<real>)
    requires t.buf != [] && |v| == 11
    requires v[0] == r.rssi && v[1] == r.all && v[2] == r.lost && v[3] == r.fec && v[4] == r.uniq
    requires v[5] == SlopeC(t.buf) && v[6] == YBar(t.buf) && v[7] == LossRateC(t.buf) && v[8] == FecRate(t.buf)
    requires v[9] == t.sinceLoss && v[10] == SumAll(t.buf, Dropout) / |t.buf| as real
    ensures v == FeaturesC(r, t)
  {
  }

  method Write5(out: array<real>, at: nat, a: real, b: real, c: real, d: real, e: real)
    requires at + 5 <= out.Length
    modifies out
    ensures out[at] == a && out[at + 1] == b && out[at + 2] == c && out[at + 3] == d && out[at + 4] == e
    ensures forall k :: 0 <= k < out.Length && !(at <= k < at + 5) ==> out[k] == old(out[k])
  {
    out[at], out[at + 1], out[at + 2], out[at + 3], out[at + 4] := a, b, c, d, e;
  }

  lemma {:induction false} TwiceAround(x: int, n: int)
    requires n > 0 && 0 <= x < 2 * n
    ensures (x + n) % n == x % n
  {
    Quotient(x, n, x / n);
    Quotient(x + n, n, x / n + 1);
  }

  lemma {:induction false} Quotient(x: int, n: int, q: int)
    requires n > 0 && 0 <= x - n * q < n
    ensures x % n == x - n * q
  {
    var d := x / n - q;
    assert n * (x / n) == n * q + n * d;
    Multiples(n, d);
  }

  lemma {:induction false} Multiples(n: int, d: int)
    requires n > 0
    ensures (d >= 1 ==> n * d >= n) && (d <= -1 ==> n * d <= -n)
  {
  }

  /** wfb_schema.TrendState. */
  class TrendState {
    const window: nat
    var buf: seq<Entry>
    var sinceLoss: real

    function Now(): Trend
      reads this
    {
      Trend(buf, sinceLoss)
    }

    constructor (window: nat)
      ensures this.window == window && Now() == START
    {
      this.window := window;
      buf, sinceLoss := [], SINCE_CAP;
    }

    method Push(r: Rec) returns (features: seq<real>)
      requires window > 0
      modifies this
      ensures Now() == Pushed(window, old(Now()), r) && buf != []
      ensures features == FeaturesPy(r, Now())
    {
      if Lossy(r) {
        sinceLoss := 0.0;
      } else {
        sinceLoss := if SINCE_CAP < sinceLoss + 1.0 then SINCE_CAP else sinceLoss + 1.0;
      }
      buf := buf + [EntryOf(r)];
      if |buf| > window {
        buf := buf[|buf| - window..];
      }
      features := FeaturesPy(r, Now());
    }
  }
}
