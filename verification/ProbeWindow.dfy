/** The boundary-probe packet-error producer of ground/gs_supervisor.c: buckets by
    received MCS, flushed once a window. Times are microseconds. */
module ProbeWindow {
  import opened Runs

  const RUNGS := 16
  const INT_MIN := -0x8000_0000

  /** `rssi` is INT_MIN for none. */
  datatype Bucket = Bucket(uniq: int, lost: int, rssi: int)

  const EMPTY := Bucket(0, 0, INT_MIN)

  /** One emitted record; `window` is how long it was collected. */
  datatype Rec = Rec(mcs: int, recv: int, lost: int, rssi: int, window: int)

  type Buckets = b: seq<Bucket> | |b| == 16
    witness [EMPTY, EMPTY, EMPTY, EMPTY, EMPTY, EMPTY, EMPTY, EMPTY, EMPTY, EMPTY, EMPTY, EMPTY, EMPTY, EMPTY, EMPTY, EMPTY]

  /** `start` is 0 before the first record. */
  datatype Probe = Probe(start: int, buckets: Buckets)

  datatype Feed = Feed(now: int, uniq: int, lost: int, mcs: int, rssi: int)

  function Per(r: Rec): real
    requires r.recv + r.lost != 0
  {
    r.lost as real / (r.recv + r.lost) as real
  }

  function Blank(): Buckets {
    seq(16, _ => EMPTY)
  }

  /** The records of the non-empty buckets from rung `m` on. */
  function RecordsFrom(b: Buckets, m: nat, window: int): seq<Rec>
    requires m <= RUNGS
    decreases RUNGS - m
  {
    if m == RUNGS then []
    else RecordsOf(b[m], m, window) + RecordsFrom(b, m + 1, window)
  }

  /** The record of one bucket; none of an empty one. */
  function RecordsOf(b: Bucket, m: nat, window: int): seq<Rec> {
    if (b.uniq + b.lost) % U32 == 0 then [] else [Rec(m, b.uniq, b.lost, b.rssi, window)]
  }

  function Counted(b: Bucket, f: Feed): Bucket {
    Bucket((b.uniq + f.uniq) % U32, (b.lost + f.lost) % U32,
           if f.rssi != INT_MIN && (b.rssi == INT_MIN || f.rssi > b.rssi) then f.rssi else b.rssi)
  }

  predicate Stale(p: Probe, win: int, now: int) {
    Since(now, p.start) > 4 * win
  }

  /** The window a record falls in, begun afresh before the first record and when
      the last one is stale; and what a stale one throws away. */
  function Freshened(p: Probe, win: int, now: int): (Probe, seq<Rec>) {
    if p.start == 0 then (Probe(now, Blank()), [])
    else if Stale(p, win, now) then (Probe(now, Blank()), RecordsFrom(p.buckets, 0, Since(now, p.start)))
    else (p, [])
  }

  function Filled(p: Probe, f: Feed): Probe {
    if 0 <= f.mcs < RUNGS then p.(buckets := p.buckets[f.mcs := Counted(p.buckets[f.mcs], f)]) else p
  }

  /** A full window is emitted. */
  function Flushed(p: Probe, win: int, now: int): (Probe, seq<Rec>) {
    if Since(now, p.start) >= win then (Probe(now, Blank()), RecordsFrom(p.buckets, 0, Since(now, p.start))) else (p, [])
  }

  /** The state after a record, what is emitted, and what is thrown away. */
  datatype Result = Result(probe: Probe, emitted: seq<Rec>, discarded: seq<Rec>)

  function Accumulate(p: Probe, win: int, f: Feed): Result {
    var (p1, discarded) := Freshened(p, win, f.now);
    var (p2, emitted) := Flushed(Filled(p1, f), win, f.now);
    Result(p2, emitted, discarded)
  }

  // ---- The tunnel

  class Tunnel {
    const winUs: int
    const bucket: array<Bucket>
    var winStartUs: int
    var emitCount: nat
    var dropCount: nat

    ghost predicate Valid()
      reads this
    {
      bucket.Length == RUNGS
    }

    ghost function Now(): Probe
      requires Valid()
      reads this, bucket
    {
      Probe(winStartUs, bucket[..])
    }

    constructor (winUs: int)
      ensures Valid() && fresh(bucket) && this.winUs == winUs && Now() == Probe(0, Blank())
      ensures emitCount == 0 && dropCount == 0
    {
      this.winUs := winUs;
      bucket := new Bucket[RUNGS](_ => EMPTY);
      winStartUs, emitCount, dropCount := 0, 0, 0;
      new;
      assert bucket[..] == Blank();
    }

    method BucketsReset(now: int)
      requires Valid()
      modifies this`winStartUs, bucket
      ensures Valid() && Now() == Probe(now, Blank())
    {
      for i := 0 to RUNGS
        invariant forall j :: 0 <= j < i ==> bucket[j] == EMPTY
      {
        bucket[i] := EMPTY;
      }
      winStartUs := now;
      assert bucket[..] == Blank();
    }

    method WindowFlush(now: int) returns (out: seq<Rec>)
      requires Valid()
      modifies this`winStartUs, this`emitCount, bucket
      ensures Valid() && Now() == Probe(now, Blank())
      ensures out == RecordsFrom(old(Now()).buckets, 0, Since(now, old(winStartUs)))
      ensures emitCount == old(emitCount) + |out|
    {
      var window := Since(now, winStartUs);
      out := [];
      ghost var b := Now().buckets;
      for m := 0 to RUNGS
        invariant Joined(out, b, m, window)
        invariant bucket[..] == b && emitCount == old(emitCount) + |out|
      {
        ghost var before := out;
        assert bucket[m] == b[m];
        var u, l := bucket[m].uniq, bucket[m].lost;
        if (u + l) % U32 != 0 {
          out := out + [Rec(m, u, l, bucket[m].rssi, window)];
          emitCount := emitCount + 1;
        }
        FlushStep(before, out, b, m, window);
      }
      BucketsReset(now);
    }

    method Freshen(now: int)
      requires Valid() && winUs >= 0
      modifies this`winStartUs, this`dropCount, bucket
      ensures Valid() && Now() == Freshened(old(Now()), winUs, now).0
      ensures dropCount == old(dropCount) + if old(winStartUs) != 0 && Stale(old(Now()), winUs, now) then 1 else 0
    {
      if winStartUs == 0 {
        BucketsReset(now);
      }
      if Since(now, winStartUs) > 4 * winUs {
        BucketsReset(now);
        dropCount := dropCount + 1;
      }
    }

    method Fill(f: Feed)
      requires Valid()
      modifies bucket
      ensures Now() == Filled(old(Now()), f)
    {
      if 0 <= f.mcs < RUNGS {
        var b := bucket[f.mcs];
        var rssi := if f.rssi != INT_MIN && (b.rssi == INT_MIN || f.rssi > b.rssi) then f.rssi else b.rssi;
        bucket[f.mcs] := Bucket((b.uniq + f.uniq) % U32, (b.lost + f.lost) % U32, rssi);
      }
    }

    method AccumulateRecord(f: Feed) returns (out: seq<Rec>)
      requires Valid() && winUs >= 0
      modifies this`winStartUs, this`emitCount, this`dropCount, bucket
      ensures Valid()
      ensures var r := Accumulate(old(Now()), winUs, f); Now() == r.probe && out == r.emitted
      ensures emitCount == old(emitCount) + |out|
      ensures dropCount == old(dropCount) + if old(winStartUs) != 0 && Stale(old(Now()), winUs, f.now) then 1 else 0
    {
      Freshen(f.now);
      Fill(f);
      out := [];
      if Since(f.now, winStartUs) >= winUs {
        out := WindowFlush(f.now);
      }
    }
  }

  /** `out` has the records of the rungs below `m`. */
  ghost predicate Joined(out: seq<Rec>, b: Buckets, m: nat, window: int)
    requires m <= RUNGS
  {
    out + RecordsFrom(b, m, window) == RecordsFrom(b, 0, window)
  }

  lemma {:induction false} FlushStep(before: seq<Rec>, out: seq<Rec>, b: Buckets, m: nat, window: int)
    requires m < RUNGS && Joined(before, b, m, window)
    requires out == before + RecordsOf(b[m], m, window)
    ensures Joined(out, b, m + 1, window)
  {
    Concat(before, RecordsOf(b[m], m, window), RecordsFrom(b, m + 1, window));
  }

  lemma {:induction false} Concat(a: seq<Rec>, b: seq<Rec>, c: seq<Rec>)
    ensures a + (b + c) == a + b + c
  {
  }

  // ---- Runs

  /** The probe, and everything emitted and thrown away so far. */
  datatype World = World(probe: Probe, emitted: seq<Rec>, discarded: seq<Rec>)

  function After(win: int, run: seq<Feed>): World {
    if run == [] then World(Probe(0, Blank()), [], [])
    else
      var w := After(win, Front(run));
      var r := Accumulate(w.probe, win, Last(run));
      World(r.probe, w.emitted + r.emitted, w.discarded + r.discarded)
  }

  function ClockOf(run: seq<Feed>): int {
    if run == [] then 1 else Last(run).now
  }

  /** A clock past 0 that does not go back, and no 32-bit counter that wraps. */
  predicate Sound(win: int, run: seq<Feed>) {
    run != [] ==>
      && Sound(win, Front(run))
      && 1 <= ClockOf(Front(run)) <= Last(run).now < U64
      && Feedable(After(win, Front(run)).probe, Last(run))
  }

  predicate Feedable(p: Probe, f: Feed) {
    0 <= f.uniq && 0 <= f.lost && f.uniq + f.lost < U32 && Fits(p, f)
  }

  predicate Fits(p: Probe, f: Feed) {
    0 <= f.mcs < RUNGS ==> p.buckets[f.mcs].uniq + p.buckets[f.mcs].lost + f.uniq + f.lost < U32
  }

  datatype Count = Received | Lost

  function OfFeed(f: Feed, c: Count): int {
    if c == Received then f.uniq else f.lost
  }

  function OfBucket(b: Bucket, c: Count): int {
    if c == Received then b.uniq else b.lost
  }

  function OfRec(r: Rec, c: Count): int {
    if c == Received then r.recv else r.lost
  }

  /** What was fed in for rung `m`. */
  function Fed(run: seq<Feed>, m: nat, c: Count): int {
    if run == [] then 0 else Fed(Front(run), m, c) + if Last(run).mcs == m then OfFeed(Last(run), c) else 0
  }

  /** What records say of rung `m`. */
  function Total(log: seq<Rec>, m: nat, c: Count): int {
    if log == [] then 0 else (if log[0].mcs == m then OfRec(log[0], c) else 0) + Total(log[1..], m, c)
  }

  lemma {:induction false} TotalConcat(a: seq<Rec>, b: seq<Rec>, m: nat, c: Count)
    ensures Total(a + b, m, c) == Total(a, m, c) + Total(b, m, c)
  {
    if a == [] {
      assert a + b == b;
    } else {
      assert (a + b)[1..] == a[1..] + b;
      TotalConcat(a[1..], b, m, c);
    }
  }

  predicate NoWrap(b: Buckets) {
    forall m :: 0 <= m < RUNGS ==> 0 <= b[m].uniq && 0 <= b[m].lost && b[m].uniq + b[m].lost < U32
  }

  /** A flush loses nothing and mixes nothing. */
  lemma {:induction false} RecordsTotal(b: Buckets, k: nat, window: int, m: nat, c: Count)
    requires NoWrap(b) && k <= RUNGS && m < RUNGS
    ensures Total(RecordsFrom(b, k, window), m, c) == if k <= m then OfBucket(b[m], c) else 0
    decreases RUNGS - k
  {
    if k < RUNGS {
      RecordsTotal(b, k + 1, window, m, c);
      TotalConcat(RecordsOf(b[k], k, window), RecordsFrom(b, k + 1, window), m, c);
      RecordTotal(b[k], k, window, m, c);
    }
  }

  lemma {:induction false} RecordTotal(b: Bucket, k: nat, window: int, m: nat, c: Count)
    requires 0 <= b.uniq && 0 <= b.lost && b.uniq + b.lost < U32
    ensures Total(RecordsOf(b, k, window), m, c) == if k == m then OfBucket(b, c) else 0
  {
  }

  predicate RecOk(r: Rec, win: int) {
    && 0 <= r.mcs < RUNGS && 0 <= r.recv && 0 <= r.lost && r.recv + r.lost > 0
    && win <= r.window <= 4 * win
  }

  predicate AllOk(log: seq<Rec>, win: int) {
    forall r :: r in log ==> RecOk(r, win)
  }

  lemma {:induction false} RecordsOk(b: Buckets, k: nat, window: int, win: int)
    requires NoWrap(b) && k <= RUNGS && win <= window <= 4 * win
    ensures AllOk(RecordsFrom(b, k, window), win)
    decreases RUNGS - k
  {
    if k < RUNGS {
      RecordsOk(b, k + 1, window, win);
      RecordOk(b[k], k, window, win);
    }
  }

  lemma {:induction false} RecordOk(b: Bucket, k: nat, window: int, win: int)
    requires 0 <= b.uniq && 0 <= b.lost && b.uniq + b.lost < U32 && k < RUNGS && win <= window <= 4 * win
    ensures AllOk(RecordsOf(b, k, window), win)
  {
  }

  lemma {:induction false} BlankIsEmpty()
    ensures NoWrap(Blank()) && forall m :: 0 <= m < RUNGS ==> Blank()[m] == EMPTY
  {
  }

  predicate Inv(win: int, w: World, now: int) {
    && ProbeOk(w.probe, now)
    && AllOk(w.emitted, win)
  }

  /** The probe part of the invariant. */
  predicate ProbeOk(p: Probe, now: int) {
    NoWrap(p.buckets) && 0 <= p.start <= now && (p.start == 0 ==> p.buckets == Blank())
  }

  /** Beginning afresh moves what the buckets hold to the discarded, and leaves a
      window no older than four. */
  lemma {:induction false} FreshenedOk(p: Probe, win: int, f: Feed)
    requires win > 0 && ProbeOk(p, f.now) && 1 <= f.now < U64 && Fits(p, f) && 0 <= f.uniq && 0 <= f.lost
    requires f.uniq + f.lost < U32
    ensures var q := Freshened(p, win, f.now).0;
            ProbeOk(q, f.now) && q.start != 0 && f.now - q.start <= 4 * win && Fits(q, f)
  {
    BlankIsEmpty();
  }

  lemma {:induction false} FreshenedMoves(p: Probe, win: int, now: int, m: nat, c: Count)
    requires win > 0 && ProbeOk(p, now) && m < RUNGS
    ensures var (q, out) := Freshened(p, win, now);
            OfBucket(p.buckets[m], c) == Total(out, m, c) + OfBucket(q.buckets[m], c)
  {
    BlankIsEmpty();
    RecordsTotal(p.buckets, 0, Since(now, p.start), m, c);
  }

  lemma {:induction false} FilledAdds(p: Probe, f: Feed, m: nat, c: Count)
    requires NoWrap(p.buckets) && Fits(p, f) && 0 <= f.uniq && 0 <= f.lost && m < RUNGS
    ensures NoWrap(Filled(p, f).buckets) && Filled(p, f).start == p.start
    ensures OfBucket(Filled(p, f).buckets[m], c) == OfBucket(p.buckets[m], c) + if f.mcs == m then OfFeed(f, c) else 0
  {
  }

  lemma {:induction false} FlushedMoves(p: Probe, win: int, now: int, m: nat, c: Count)
    requires NoWrap(p.buckets) && m < RUNGS
    ensures var (q, out) := Flushed(p, win, now);
            OfBucket(p.buckets[m], c) == Total(out, m, c) + OfBucket(q.buckets[m], c)
  {
    BlankIsEmpty();
    RecordsTotal(p.buckets, 0, Since(now, p.start), m, c);
  }

  lemma {:induction false} FlushedOk(p: Probe, win: int, now: int)
    requires win > 0 && ProbeOk(p, now) && 1 <= now < U64 && p.start != 0 && now - p.start <= 4 * win
    ensures var (q, out) := Flushed(p, win, now); ProbeOk(q, now) && AllOk(out, win)
  {
    BlankIsEmpty();
    assert Since(now, p.start) == now - p.start;
    if now - p.start >= win {
      RecordsOk(p.buckets, 0, Since(now, p.start), win);
    }
  }

  lemma {:induction false} StepInv(win: int, w: World, f: Feed, now: int)
    requires win > 0 && Inv(win, w, now) && 1 <= now <= f.now < U64 && Feedable(w.probe, f)
    ensures var r := Accumulate(w.probe, win, f);
            Inv(win, World(r.probe, w.emitted + r.emitted, w.discarded + r.discarded), f.now)
  {
    FreshenedOk(w.probe, win, f);
    var p := Freshened(w.probe, win, f.now).0;
    FilledAdds(p, f, 0, Lost);
    FlushedOk(Filled(p, f), win, f.now);
  }

  lemma {:induction false} StepConserves(win: int, p: Probe, f: Feed, m: nat, c: Count)
    requires win > 0 && ProbeOk(p, f.now) && 1 <= f.now < U64 && Feedable(p, f) && m < RUNGS
    ensures var r := Accumulate(p, win, f);
            OfBucket(p.buckets[m], c) + (if f.mcs == m then OfFeed(f, c) else 0)
              == Total(r.emitted, m, c) + Total(r.discarded, m, c) + OfBucket(r.probe.buckets[m], c)
  {
    FreshenedOk(p, win, f);
    FreshenedMoves(p, win, f.now, m, c);
    var q := Freshened(p, win, f.now).0;
    FilledAdds(q, f, m, c);
    FlushedMoves(Filled(q, f), win, f.now, m, c);
  }

  lemma {:induction false} InvHolds(win: int, run: seq<Feed>)
    requires win > 0 && Sound(win, run)
    ensures Inv(win, After(win, run), ClockOf(run)) && ClockOf(run) >= 1
  {
    if run == [] {
      BlankIsEmpty();
    } else {
      InvHolds(win, Front(run));
      StepInv(win, After(win, Front(run)), Last(run), ClockOf(Front(run)));
    }
  }

  /** For each rung and both counts: what was fed in equals what was emitted for
      that rung, plus its current bucket, plus what was discarded as stale. */
  lemma {:induction false} Conservation(win: int, run: seq<Feed>, m: nat, c: Count)
    requires win > 0 && Sound(win, run) && m < RUNGS
    ensures var w := After(win, run);
            Fed(run, m, c) == Total(w.emitted, m, c) + Total(w.discarded, m, c) + OfBucket(w.probe.buckets[m], c)
  {
    if run == [] {
      BlankIsEmpty();
    } else {
      Conservation(win, Front(run), m, c);
      InvHolds(win, Front(run));
      var w := After(win, Front(run));
      StepConserves(win, w.probe, Last(run), m, c);
      var r := Accumulate(w.probe, win, Last(run));
      TotalConcat(w.emitted, r.emitted, m, c);
      TotalConcat(w.discarded, r.discarded, m, c);
    }
  }

  /** Every emitted record covers between one and four nominal windows, and its
      error rate lies in [0, 1]. */
  lemma {:induction false} EmittedAreSound(win: int, run: seq<Feed>, r: Rec)
    requires win > 0 && Sound(win, run) && r in After(win, run).emitted
    ensures 0 <= r.mcs < RUNGS && win <= r.window <= 4 * win
    ensures r.recv + r.lost > 0 && 0.0 <= Per(r) <= 1.0
  {
    InvHolds(win, run);
    Share(r.lost as real, (r.recv + r.lost) as real);
  }

  lemma {:induction false} Share(a: real, b: real)
    requires 0.0 <= a <= b && b > 0.0
    ensures 0.0 <= a / b <= 1.0
  {
  }

  // ---- What a record does, window by window

  /** The records of the rungs from `k` on: in rung order, one for each that
      counted anything. */
  predicate FlushesFrom(out: seq<Rec>, b: Buckets, k: nat, window: int) {
    && (forall i, j :: 0 <= i < j < |out| ==> out[i].mcs < out[j].mcs)
    && (forall r :: r in out ==> k <= r.mcs < RUNGS && r == RecordOf(b[r.mcs], r.mcs, window))
    && (forall m :: k <= m < RUNGS ==> (RecordOf(b[m], m, window) in out <==> b[m].uniq + b[m].lost > 0))
  }

  function RecordOf(b: Bucket, m: int, window: int): Rec {
    Rec(m, b.uniq, b.lost, b.rssi, window)
  }

  predicate Flushes(out: seq<Rec>, b: Buckets, window: int) {
    FlushesFrom(out, b, 0, window)
  }

  lemma {:induction false} RecordsFlush(b: Buckets, k: nat, window: int)
    requires NoWrap(b) && k <= RUNGS
    ensures FlushesFrom(RecordsFrom(b, k, window), b, k, window)
    decreases RUNGS - k
  {
    if k < RUNGS {
      RecordsFlush(b, k + 1, window);
      FlushMore(b, k, window, RecordsOf(b[k], k, window), RecordsFrom(b, k + 1, window));
    }
  }

  lemma {:induction false} FlushMore(b: Buckets, k: nat, window: int, own: seq<Rec>, rest: seq<Rec>)
    requires k < RUNGS && NoWrap(b) && FlushesFrom(rest, b, k + 1, window)
    requires own == if b[k].uniq + b[k].lost > 0 then [RecordOf(b[k], k, window)] else []
    ensures FlushesFrom(own + rest, b, k, window)
  {
    forall j | 0 <= j < |rest| ensures rest[j].mcs > k {
      assert rest[j] in rest;
    }
  }

  /** The buckets with one record added: to its rung's counts, and to its rung's
      strongest signal; a record of no rung adds nothing. */
  predicate With(b: Buckets, f: Feed, c: Buckets) {
    forall m :: 0 <= m < RUNGS ==>
      if m != f.mcs then c[m] == b[m]
      else
        && c[m].uniq == b[m].uniq + f.uniq && c[m].lost == b[m].lost + f.lost
        && c[m].rssi == if f.rssi > b[m].rssi then f.rssi else b[m].rssi
  }

  predicate NoneCounted(b: Buckets) {
    forall m :: 0 <= m < RUNGS ==> b[m] == Bucket(0, 0, INT_MIN)
  }

  /** What one record does to probe `p`, in time since the window began. */
  ghost predicate Decided(p: Probe, win: int, f: Feed, r: Result) {
    var q, age := r.probe, f.now - p.start;
    if p.start == 0 then
      r.emitted == [] && r.discarded == [] && q.start == f.now && NoneCounted(p.buckets) && With(p.buckets, f, q.buckets)
    else if age < win then
      r.emitted == [] && r.discarded == [] && q.start == p.start && With(p.buckets, f, q.buckets)
    else if age <= 4 * win then
      && r.discarded == [] && q.start == f.now && NoneCounted(q.buckets)
      && exists c: Buckets :: With(p.buckets, f, c) && Flushes(r.emitted, c, age)
    else
      && r.emitted == [] && Flushes(r.discarded, p.buckets, age) && q.start == f.now
      && exists none: Buckets :: NoneCounted(none) && With(none, f, q.buckets)
  }

  /** Signal levels are C ints. */
  predicate Levels(b: Buckets) {
    forall m :: 0 <= m < RUNGS ==> b[m].rssi >= INT_MIN
  }

  lemma {:induction false} FilledWith(p: Probe, f: Feed)
    requires NoWrap(p.buckets) && Levels(p.buckets) && Feedable(p, f) && f.rssi >= INT_MIN
    ensures With(p.buckets, f, Filled(p, f).buckets) && Levels(Filled(p, f).buckets) && NoWrap(Filled(p, f).buckets)
    ensures Filled(p, f).start == p.start
  {
  }

  lemma {:induction false} BlankFeed(now: int, f: Feed)
    requires 0 <= f.uniq && 0 <= f.lost && f.uniq + f.lost < U32
    ensures Levels(Blank()) && NoneCounted(Blank()) && NoWrap(Blank()) && Feedable(Probe(now, Blank()), f)
  {
  }

  /** In the first window, or before it is over. */
  lemma {:induction false} EarlyRecord(p: Probe, win: int, f: Feed)
    requires win > 0 && ProbeOk(p, f.now) && Levels(p.buckets) && 1 <= f.now < U64 && Feedable(p, f) && f.rssi >= INT_MIN
    requires p.start == 0 || f.now - p.start < win
    ensures Decided(p, win, f, Accumulate(p, win, f)) && Levels(Accumulate(p, win, f).probe.buckets)
  {
    BlankFeed(f.now, f);
    var q := if p.start == 0 then Probe(f.now, Blank()) else p;
    FilledWith(q, f);
    assert Since(f.now, p.start) == f.now - p.start && Since(f.now, q.start) == f.now - q.start;
    assert Accumulate(p, win, f) == Result(Filled(q, f), [], []);
  }

  lemma {:induction false} TimelyRecord(p: Probe, win: int, f: Feed)
    requires win > 0 && ProbeOk(p, f.now) && Levels(p.buckets) && 1 <= f.now < U64 && Feedable(p, f) && f.rssi >= INT_MIN
    requires p.start != 0 && win <= f.now - p.start <= 4 * win
    ensures Decided(p, win, f, Accumulate(p, win, f)) && Levels(Accumulate(p, win, f).probe.buckets)
  {
    BlankFeed(f.now, f);
    FilledWith(p, f);
    SinceIs(f.now, p.start);
    var c, age := Filled(p, f).buckets, f.now - p.start;
    TimelyIs(p, win, f, age);
    FullFlush(c, age, Flushed(Filled(p, f), win, f.now).1);
    FlushedAs(p, win, f, c, age, Flushed(Filled(p, f), win, f.now).1);
  }

  lemma {:induction false} SinceIs(now: int, start: int)
    requires 0 <= start <= now < U64
    ensures Since(now, start) == now - start
  {
  }

  lemma {:induction false} TimelyIs(p: Probe, win: int, f: Feed, age: int)
    requires p.start != 0 && Since(f.now, p.start) == age && win <= age <= 4 * win
    ensures Flushed(Filled(p, f), win, f.now).1 == RecordsFrom(Filled(p, f).buckets, 0, age)
    ensures Accumulate(p, win, f) == Result(Probe(f.now, Blank()), Flushed(Filled(p, f), win, f.now).1, [])
  {
  }

  lemma {:induction false} FullFlush(c: Buckets, age: int, out: seq<Rec>)
    requires NoWrap(c) && out == RecordsFrom(c, 0, age)
    ensures Flushes(out, c, age)
  {
    RecordsFlush(c, 0, age);
  }

  lemma {:induction false} FlushedAs(p: Probe, win: int, f: Feed, c: Buckets, age: int, out: seq<Rec>)
    requires p.start != 0 && age == f.now - p.start && win <= age <= 4 * win && NoneCounted(Blank())
    requires With(p.buckets, f, c) && Flushes(out, c, age)
    ensures Decided(p, win, f, Result(Probe(f.now, Blank()), out, []))
  {
  }

  lemma {:induction false} StaleRecord(p: Probe, win: int, f: Feed)
    requires win > 0 && ProbeOk(p, f.now) && Levels(p.buckets) && 1 <= f.now < U64 && Feedable(p, f) && f.rssi >= INT_MIN
    requires p.start != 0 && f.now - p.start > 4 * win
    ensures Decided(p, win, f, Accumulate(p, win, f)) && Levels(Accumulate(p, win, f).probe.buckets)
  {
    BlankFeed(f.now, f);
    var q, age := Probe(f.now, Blank()), f.now - p.start;
    FilledWith(q, f);
    assert Since(f.now, p.start) == age && Since(f.now, f.now) == 0;
    RecordsFlush(p.buckets, 0, age);
    assert Accumulate(p, win, f) == Result(Filled(q, f), [], RecordsFrom(p.buckets, 0, age));
    DiscardedAs(p, win, f, Filled(q, f), RecordsFrom(p.buckets, 0, age));
  }

  lemma {:induction false} DiscardedAs(p: Probe, win: int, f: Feed, q: Probe, out: seq<Rec>)
    requires win > 0 && p.start != 0 && f.now - p.start > 4 * win && NoneCounted(Blank())
    requires With(Blank(), f, q.buckets) && Flushes(out, p.buckets, f.now - p.start) && q.start == f.now
    ensures Decided(p, win, f, Result(q, [], out))
  {
  }

  lemma {:induction false} LevelsHold(win: int, run: seq<Feed>)
    requires win > 0 && Sound(win, run) && forall i :: 0 <= i < |run| ==> run[i].rssi >= INT_MIN
    ensures Levels(After(win, run).probe.buckets)
    decreases |run|, 1
  {
    if run != [] {
      LevelsHold(win, Front(run));
      RecordDecides(win, run);
    } else {
      BlankFeed(0, Feed(0, 0, 0, 0, 0));
    }
  }

  /** In every run: a record before a window is over is only counted; one between
      one and four windows is counted and then everything is emitted; one later
      than that discards what was there, and begins a window with itself alone. */
  lemma {:induction false} RecordDecides(win: int, run: seq<Feed>)
    requires win > 0 && Sound(win, run) && run != [] && forall i :: 0 <= i < |run| ==> run[i].rssi >= INT_MIN
    ensures var p, r := After(win, Front(run)).probe, Accumulate(After(win, Front(run)).probe, win, Last(run));
            && Decided(p, win, Last(run), r) && Levels(r.probe.buckets)
            && After(win, run).probe == r.probe
            && After(win, run).emitted == After(win, Front(run)).emitted + r.emitted
            && After(win, run).discarded == After(win, Front(run)).discarded + r.discarded
    decreases |run|, 0
  {
    InvHolds(win, Front(run));
    LevelsHold(win, Front(run));
    var p, f := After(win, Front(run)).probe, Last(run);
    if p.start == 0 || f.now - p.start < win {
      EarlyRecord(p, win, f);
    } else if f.now - p.start <= 4 * win {
      TimelyRecord(p, win, f);
    } else {
      StaleRecord(p, win, f);
    }
  }
}
