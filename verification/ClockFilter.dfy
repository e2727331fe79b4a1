/** The clock-offset filter of probes/rtp_timing_probe.c: of the last eight
    exchanges the one with the least round trip gives the offset. Times are
    microseconds. */
module ClockFilter {
  import opened Runs

  const SIZE := 8

  /** The four timestamps of an exchange: ours, theirs, theirs, ours. */
  datatype Exchange = Exchange(t1: int, t2: int, t3: int, t4: int)

  datatype Sample = Sample(rtt: int, offset: int)

  /** A 64-bit difference read as signed. */
  function Signed(d: int): (r: int)
    ensures -0x8000_0000_0000_0000 <= r < 0x8000_0000_0000_0000
    ensures -0x8000_0000_0000_0000 <= d < 0x8000_0000_0000_0000 ==> r == d
  {
    (d + 0x8000_0000_0000_0000) % U64 - 0x8000_0000_0000_0000
  }

  /** C's division by 2 rounds toward zero. */
  function Half(x: int): (r: int)
    ensures if x >= 0 then 0 <= x - 2 * r <= 1 else -1 <= x - 2 * r <= 0
  {
    if x < 0 then -(-x / 2) else x / 2
  }

  function SampleOf(e: Exchange): Sample {
    Sample(Signed(e.t4 - e.t1) - Signed(e.t3 - e.t2), Half(Signed(e.t2 - e.t1) + Signed(e.t3 - e.t4)))
  }

  /** The filter: eight slots, how many are filled, the unsigned write counter
      and the offset chosen last. */
  datatype Filter = Filter(slots: seq<Sample>, count: nat, next: nat, best: int, valid: bool)

  function Empty(): Filter {
    Filter(seq(8, _ => Sample(0, 0)), 0, 0, 0, false)
  }

  predicate Shaped(f: Filter) {
    |f.slots| == SIZE && f.count <= SIZE
  }

  /** The first slot with the least round trip among the first `n`. */
  function FirstMin(s: seq<Sample>, n: nat): (k: nat)
    requires 0 < n <= |s|
    ensures k < n && (forall j :: 0 <= j < n ==> s[k].rtt <= s[j].rtt)
    ensures forall j :: 0 <= j < k ==> s[k].rtt < s[j].rtt
  {
    if n == 1 then 0
    else
      var k := FirstMin(s, n - 1);
      if s[n - 1].rtt < s[k].rtt then n - 1 else k
  }

  /** A sample stored in the next slot. */
  function Stored(f: Filter, x: Sample): (r: Filter)
    requires Shaped(f)
    ensures Shaped(r) && r.count > 0
  {
    f.(slots := f.slots[f.next % SIZE := x], count := if f.count < SIZE then f.count + 1 else f.count,
       next := (f.next + 1) % U32)
  }

  function BestOf(f: Filter): int
    requires Shaped(f) && f.count > 0
  {
    f.slots[FirstMin(f.slots, f.count)].offset
  }

  function Recorded(f: Filter, x: Sample): (r: Filter)
    requires Shaped(f)
    ensures Shaped(r)
  {
    var r := Stored(f, x);
    r.(best := BestOf(r), valid := true)
  }

  class SyncState {
    const rttUs: array<int>
    const offsetUs: array<int>
    var count: nat
    var next: nat
    var bestOffsetUs: int
    var valid: bool

    ghost predicate Valid()
      reads this
    {
      rttUs.Length == SIZE && offsetUs.Length == SIZE && rttUs != offsetUs && count <= SIZE
    }

    ghost function Now(): (f: Filter)
      requires Valid()
      reads this, rttUs, offsetUs
      ensures Shaped(f)
    {
      Filter(seq(8, i requires 0 <= i < 8 && Valid() reads this, rttUs, offsetUs => Sample(rttUs[i], offsetUs[i])),
             count, next, bestOffsetUs, valid)
    }

    constructor ()
      ensures Valid() && fresh(rttUs) && fresh(offsetUs) && Now() == Empty()
    {
      rttUs := new int[SIZE](_ => 0);
      offsetUs := new int[SIZE](_ => 0);
      count, next, bestOffsetUs, valid := 0, 0, 0, false;
      new;
      assert Now().slots == Empty().slots;
    }

    method Store(rtt: int, offset: int)
      requires Valid()
      modifies this`next, this`count, rttUs, offsetUs
      ensures Valid() && Now() == Stored(old(Now()), Sample(rtt, offset))
    {
      ghost var f := Now();
      var i := next % SIZE;
      rttUs[i] := rtt;
      offsetUs[i] := offset;
      next := (next + 1) % U32;
      if count < SIZE {
        count := count + 1;
      }
      assert Now().slots == f.slots[i := Sample(rtt, offset)];
    }

    method Choose() returns (best: int)
      requires Valid() && count > 0
      ensures best == BestOf(Now())
    {
      ghost var s := Now().slots;
      var minRtt := rttUs[0];
      best := offsetUs[0];
      for j := 1 to count
        invariant minRtt == s[FirstMin(s, j)].rtt && best == s[FirstMin(s, j)].offset
      {
        if rttUs[j] < minRtt {
          minRtt := rttUs[j];
          best := offsetUs[j];
        }
      }
    }

    method SyncRecord(e: Exchange)
      requires Valid()
      modifies this, rttUs, offsetUs
      ensures Valid() && Now() == Recorded(old(Now()), SampleOf(e))
    {
      var rtt := Signed(e.t4 - e.t1) - Signed(e.t3 - e.t2);
      var offset := Half(Signed(e.t2 - e.t1) + Signed(e.t3 - e.t4));
      Offer(SampleOf(e), rtt, offset);
    }

    method Offer(ghost x: Sample, rtt: int, offset: int)
      requires Valid() && x == Sample(rtt, offset)
      modifies this, rttUs, offsetUs
      ensures Valid() && Now() == Recorded(old(Now()), x)
    {
      Store(rtt, offset);
      var best := Choose();
      Adopt(best);
    }

    method Adopt(offset: int)
      requires Valid()
      modifies this`bestOffsetUs, this`valid
      ensures Valid() && Now() == old(Now()).(best := offset, valid := true)
    {
      ghost var f := Now();
      bestOffsetUs := offset;
      valid := true;
      assert Now().slots == f.slots;
    }
  }

  // ---- Runs

  function After(run: seq<Exchange>): (f: Filter)
    ensures Shaped(f)
  {
    if run == [] then Empty() else Recorded(After(Front(run)), SampleOf(Last(run)))
  }

  /** The exchange slot `j` holds after `n` of them. */
  function Latest(n: nat, j: nat): int {
    n - 1 - (n - 1 - j) % SIZE
  }

  lemma {:induction false} LatestStep(n: nat, j: nat)
    requires j < SIZE && n > 0
    ensures Latest(n, j) == if (n - 1) % SIZE == j then n - 1 else Latest(n - 1, j)
    ensures j < n ==> 0 <= Latest(n, j) < n && Latest(n, j) >= n - SIZE
    ensures j >= n ==> Latest(n, j) < 0
  {
  }

  lemma {:induction false} Counts(run: seq<Exchange>)
    ensures After(run).count == (if |run| < SIZE then |run| else SIZE) && After(run).next == |run| % U32
  {
    if run != [] {
      Counts(Front(run));
      CounterWraps(|run| - 1);
    }
  }

  /** The 32-bit counter wraps without disturbing the slot order. */
  lemma {:induction false} CounterWraps(n: nat)
    ensures n % U32 % SIZE == n % SIZE && (n % U32 + 1) % U32 == (n + 1) % U32
  {
  }

  lemma {:induction false} StoredSlot(f: Filter, x: Sample, j: nat)
    requires Shaped(f) && j < SIZE
    ensures Recorded(f, x).slots[j] == if f.next % SIZE == j then x else f.slots[j]
  {
  }

  predicate SlotIs(f: Filter, run: seq<Exchange>, j: nat)
    requires Shaped(f) && j < SIZE
  {
    var k := Latest(|run|, j);
    j < |run| ==> 0 <= k < |run| && f.slots[j] == SampleOf(run[k])
  }

  /** Slot `j` holds the latest exchange whose number is j modulo 8. */
  lemma {:induction false} SlotsAreLatest(run: seq<Exchange>, j: nat)
    requires j < SIZE
    ensures SlotIs(After(run), run, j)
  {
    if run != [] {
      var before, e := Front(run), Last(run);
      SlotsAreLatest(before, j);
      Counts(before);
      CounterWraps(|before|);
      StoredSlot(After(before), SampleOf(e), j);
      SlotStep(After(before), Recorded(After(before), SampleOf(e)), run, before, j);
    }
  }

  lemma {:induction false} SlotStep(f: Filter, r: Filter, run: seq<Exchange>, before: seq<Exchange>, j: nat)
    requires Shaped(f) && Shaped(r) && j < SIZE && run != [] && before == Front(run) && SlotIs(f, before, j)
    requires r.slots[j] == if (|run| - 1) % SIZE == j then SampleOf(Last(run)) else f.slots[j]
    ensures SlotIs(r, run, j)
  {
    LatestStep(|run|, j);
  }

  predicate Recent(n: nat, k: int) {
    0 <= k < n && n - SIZE <= k
  }

  /** After any number of exchanges the chosen offset is that of one of the last
      min(8, n), and none of those has a smaller round trip. */
  lemma {:induction false} BestHasLeastRtt(run: seq<Exchange>) returns (k: nat)
    requires run != []
    ensures Recent(|run|, k) && After(run).valid && After(run).best == SampleOf(run[k]).offset
    ensures forall i :: Recent(|run|, i) ==> SampleOf(run[k]).rtt <= SampleOf(run[i]).rtt
  {
    Counts(run);
    forall j | 0 <= j < SIZE ensures SlotIs(After(run), run, j) {
      SlotsAreLatest(run, j);
    }
    k := LeastSlot(After(run), run);
    BestIsKept(run);
  }

  lemma {:induction false} BestIsKept(run: seq<Exchange>)
    requires run != []
    ensures var f := After(run); f.valid && f.count > 0 && f.best == BestOf(f)
  {
  }

  lemma {:induction false} RecentSlot(n: nat, i: nat)
    requires Recent(n, i)
    ensures Latest(n, i % SIZE) == i && i % SIZE < n
  {
  }

  lemma {:induction false} LeastSlot(f: Filter, run: seq<Exchange>) returns (k: nat)
    requires Shaped(f) && run != [] && f.count == (if |run| < SIZE then |run| else SIZE)
    requires forall j :: 0 <= j < SIZE ==> SlotIs(f, run, j)
    ensures Recent(|run|, k) && BestOf(f) == SampleOf(run[k]).offset
    ensures forall i :: Recent(|run|, i) ==> SampleOf(run[k]).rtt <= SampleOf(run[i]).rtt
  {
    var n, m := |run|, FirstMin(f.slots, f.count);
    LatestStep(n, m);
    assert SlotIs(f, run, m);
    k := Latest(n, m);
    forall i | Recent(n, i) ensures SampleOf(run[k]).rtt <= SampleOf(run[i]).rtt {
      RecentSlot(n, i);
      assert SlotIs(f, run, i % SIZE);
    }
  }

  /** An exchange with a peer whose clock is `theta` ahead, over paths that take
      `out` and `back`; the peer answers after `hold`. */
  predicate Honest(e: Exchange, theta: int, out: int, back: int, hold: int) {
    && out >= 0 && back >= 0 && hold >= 0
    && e.t2 == e.t1 + out + theta && e.t3 == e.t2 + hold && e.t4 == e.t3 - theta + back
    && out + back + hold < 0x4000_0000_0000_0000 && -0x2000_0000_0000_0000 <= theta < 0x2000_0000_0000_0000
  }

  lemma {:induction false} HonestSample(e: Exchange, theta: int, out: int, back: int, hold: int)
    requires Honest(e, theta, out, back, hold)
    ensures SampleOf(e).rtt == out + back
    ensures -(SampleOf(e).rtt + 1) <= 2 * (SampleOf(e).offset - theta) <= SampleOf(e).rtt + 1
  {
    assert Signed(e.t4 - e.t1) == out + hold + back;
    assert Signed(e.t3 - e.t2) == hold;
    assert Signed(e.t2 - e.t1) == out + theta;
    assert Signed(e.t3 - e.t4) == theta - back;
  }

  ghost predicate AllHonest(run: seq<Exchange>, theta: int) {
    forall i :: 0 <= i < |run| ==> exists out, back, hold :: Honest(run[i], theta, out, back, hold)
  }

  /** For a constant offset the error of the chosen one is at most half the least
      round trip of the last eight exchanges, up to the rounding. */
  lemma {:induction false} OffsetErrorBound(run: seq<Exchange>, theta: int)
    requires run != [] && AllHonest(run, theta)
    ensures forall i :: Recent(|run|, i) ==>
              -(SampleOf(run[i]).rtt + 1) <= 2 * (After(run).best - theta) <= SampleOf(run[i]).rtt + 1
  {
    var k := BestHasLeastRtt(run);
    var out, back, hold :| Honest(run[k], theta, out, back, hold);
    HonestSample(run[k], theta, out, back, hold);
  }
}
