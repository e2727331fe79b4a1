/** The 10-second histogram of received MCS: stats_drain in ground/gs_supervisor.c
    folds counts into ten stamped one-second slots, and json_emit_tunnel in
    ground/gs_supervisor_http.c sums the live ones. */
module McsHistogram {
  import opened Runs

  const SLOTS := 10
  const RUNGS := 16

  type Counts = c: seq<int> | |c| == 16 witness [0, 0, 0, 0, 0, 0, 0, 0, 0, 0, 0, 0, 0, 0, 0, 0]

  function Zeros(): Counts {
    seq(16, _ => 0)
  }

  /** Each slot's second and its counts. */
  datatype Hist = Hist(sec: seq<int>, win: seq<Counts>)

  predicate Shaped(h: Hist) {
    |h.sec| == SLOTS && |h.win| == SLOTS
  }

  function Clear(): Hist {
    Hist(seq(10, _ => 0), seq(10, _ => Zeros()))
  }

  function Added(a: Counts, b: Counts): Counts {
    seq(16, m requires 0 <= m < 16 => (a[m] + b[m]) % U32)
  }

  /** Counts seen in second `now`. */
  function Fold(h: Hist, now: nat, counts: Counts): (r: Hist)
    requires Shaped(h)
    ensures Shaped(r)
  {
    FoldAt(h, now % SLOTS, now, counts)
  }

  function FoldAt(h: Hist, s: nat, now: nat, counts: Counts): (r: Hist)
    requires Shaped(h) && s < SLOTS
    ensures Shaped(r)
  {
    Hist(h.sec[s := now], h.win[s := Added(if h.sec[s] != now then Zeros() else h.win[s], counts)])
  }

  predicate Live(sec: int, now: nat) {
    sec != 0 && (now - sec) % U64 < 10
  }

  /** What the API reports for rung `m`, over the first `k` slots. */
  function ApiSum(h: Hist, m: nat, now: nat, k: nat): int
    requires Shaped(h) && m < RUNGS && k <= SLOTS
  {
    if k == 0 then 0
    else
      var before := ApiSum(h, m, now, k - 1);
      if Live(h.sec[k - 1], now) then (before + h.win[k - 1][m]) % U32 else before
  }

  // ---- The tunnel's ring

  class Ring {
    const winSec: array<int>
    const win: array2<int>

    ghost predicate Valid()
      reads this
    {
      winSec.Length == SLOTS && win.Length0 == SLOTS && win.Length1 == RUNGS
    }

    ghost function Slot(s: int): Counts
      requires Valid() && 0 <= s < SLOTS
      reads this, win
    {
      seq(16, m requires 0 <= m < 16 && Valid() reads this, win => win[s, m])
    }

    ghost function View(): (h: Hist)
      requires Valid()
      reads this, winSec, win
      ensures Shaped(h)
    {
      Hist(winSec[..], seq(10, s requires 0 <= s < 10 && Valid() reads this, win => Slot(s)))
    }

    constructor ()
      ensures Valid() && fresh(winSec) && fresh(win) && View() == Clear()
    {
      winSec := new int[SLOTS](_ => 0);
      win := new int[SLOTS, RUNGS]((_, _) => 0);
      new;
      assert forall t :: 0 <= t < SLOTS ==> Slot(t) == Zeros();
      assert View().win == Clear().win;
    }

    method ClearSlot(s: int)
      requires Valid() && 0 <= s < SLOTS
      modifies win
      ensures Slot(s) == Zeros()
      ensures forall t :: 0 <= t < SLOTS && t != s ==> Slot(t) == old(Slot(t))
    {
      for m := 0 to RUNGS
        invariant forall i :: 0 <= i < m ==> win[s, i] == 0
        invariant forall t, i :: 0 <= t < SLOTS && t != s && 0 <= i < RUNGS ==> win[t, i] == old(win[t, i])
      {
        win[s, m] := 0;
      }
      assert forall t :: 0 <= t < SLOTS && t != s ==> Slot(t) == old(Slot(t));
    }

    method AddSlot(s: int, counts: Counts)
      requires Valid() && 0 <= s < SLOTS
      modifies win
      ensures Slot(s) == Added(old(Slot(s)), counts)
      ensures forall t :: 0 <= t < SLOTS && t != s ==> Slot(t) == old(Slot(t))
    {
      for m := 0 to RUNGS
        invariant forall i :: 0 <= i < RUNGS ==>
                    win[s, i] == if i < m then (old(win[s, i]) + counts[i]) % U32 else old(win[s, i])
        invariant forall t, i :: 0 <= t < SLOTS && t != s && 0 <= i < RUNGS ==> win[t, i] == old(win[t, i])
      {
        win[s, m] := (win[s, m] + counts[m]) % U32;
      }
      assert forall i :: 0 <= i < RUNGS ==> Slot(s)[i] == Added(old(Slot(s)), counts)[i];
    }

    method FoldCounts(now: nat, counts: Counts)
      requires Valid()
      modifies winSec, win
      ensures View() == Fold(old(View()), now, counts)
    {
      var s := now % SLOTS;
      ghost var h := View();
      if winSec[s] != now {
        ClearSlot(s);
        winSec[s] := now;
      }
      ghost var mid := Slot(s);
      assert mid == if h.sec[s] != now then Zeros() else h.win[s];
      AddSlot(s, counts);
      assert View().sec == Fold(h, now, counts).sec;
      assert forall t :: 0 <= t < SLOTS ==> View().win[t] == Fold(h, now, counts).win[t];
    }

    method SumRung(m: nat, now: nat) returns (sum: int)
      requires Valid() && m < RUNGS
      ensures sum == ApiSum(View(), m, now, SLOTS)
    {
      sum := 0;
      for s := 0 to SLOTS
        invariant sum == ApiSum(View(), m, now, s)
      {
        if winSec[s] != 0 && (now - winSec[s]) % U64 < 10 {
          assert win[s, m] == View().win[s][m];
          sum := (sum + win[s, m]) % U32;
        }
      }
    }
  }

  // ---- Runs

  datatype Obs = Obs(sec: nat, counts: Counts)

  function After(run: seq<Obs>): (h: Hist)
    ensures Shaped(h)
  {
    if run == [] then Clear() else Fold(After(Front(run)), Last(run).sec, Last(run).counts)
  }

  function ClockOf(run: seq<Obs>): nat {
    if run == [] then 0 else Last(run).sec
  }

  /** A non-decreasing clock. */
  predicate Clocked(run: seq<Obs>) {
    run != [] ==> Clocked(Front(run)) && ClockOf(Front(run)) <= Last(run).sec < U64
  }

  /** The total of rung `m` over the last ten seconds. */
  function Naive(run: seq<Obs>, m: nat, now: nat): int
    requires m < RUNGS
  {
    if run == [] then 0
    else Naive(Front(run), m, now) + if now - Last(run).sec < 10 then Last(run).counts[m] else 0
  }

  /** The total of rung `m` in second `q`. */
  function SecSum(run: seq<Obs>, m: nat, q: int): int
    requires m < RUNGS
  {
    if run == [] then 0 else SecSum(Front(run), m, q) + if Last(run).sec == q then Last(run).counts[m] else 0
  }

  /** The second of the last ten that slot `s` is for. */
  function SecondOf(s: nat, now: nat): int {
    now - (now - s) % 10
  }

  function SlotSum(run: seq<Obs>, m: nat, now: nat, k: nat): int
    requires m < RUNGS
  {
    if k == 0 then 0 else SlotSum(run, m, now, k - 1) + SecSum(run, m, SecondOf(k - 1, now))
  }

  /** One observation counts in exactly one slot, and only if it is recent. */
  lemma {:induction false} SlotSumGrows(run: seq<Obs>, m: nat, now: nat, k: nat)
    requires m < RUNGS && run != [] && Last(run).sec <= now && k <= SLOTS
    ensures SlotSum(run, m, now, k) == SlotSum(Front(run), m, now, k)
              + if now - Last(run).sec < 10 && Last(run).sec % 10 < k then Last(run).counts[m] else 0
  {
    if k > 0 {
      SlotSumGrows(run, m, now, k - 1);
      OneSecond(k - 1, now, Last(run).sec);
    }
  }

  lemma {:induction false} OneSecond(s: nat, now: nat, q: nat)
    requires s < SLOTS && q <= now
    ensures SecondOf(s, now) == q <==> now - q < 10 && q % 10 == s
  {
  }

  lemma {:induction false} NaiveBySlots(run: seq<Obs>, m: nat, now: nat)
    requires m < RUNGS && Clocked(run) && ClockOf(run) <= now
    ensures Naive(run, m, now) == SlotSum(run, m, now, SLOTS)
  {
    if run != [] {
      NaiveBySlots(Front(run), m, now);
      SlotSumGrows(run, m, now, SLOTS);
    } else {
      NothingInSlots(m, now, SLOTS);
    }
  }

  lemma {:induction false} NothingInSlots(m: nat, now: nat, k: nat)
    requires m < RUNGS
    ensures SlotSum([], m, now, k) == 0
  {
    if k > 0 {
      NothingInSlots(m, now, k - 1);
    }
  }

  /** A slot holds the total of its stamped second, the latest one it is for; a
      slot never stamped is empty, but for slot 0 in second 0. */
  ghost predicate SlotOk(sec: int, win: int, run: seq<Obs>, m: nat, s: nat)
    requires m < RUNGS
  {
    && (sec == 0 || sec % 10 == s) && 0 <= sec <= ClockOf(run)
    && win == (if sec % 10 == s then SecSum(run, m, sec) % U32 else 0)
    && forall q :: q > sec && q % 10 == s ==> SecSum(run, m, q) == 0
  }

  lemma {:induction false} SlotHolds(run: seq<Obs>, m: nat, s: nat)
    requires m < RUNGS && s < SLOTS && Clocked(run)
    ensures SlotOk(After(run).sec[s], After(run).win[s][m], run, m, s)
  {
    if run != [] {
      SlotHolds(Front(run), m, s);
      var h, o := After(Front(run)), Last(run);
      if o.sec % 10 == s {
        SlotTouched(run, m, s, h.sec[s], h.win[s][m]);
      } else {
        SlotUntouched(run, m, s, h.sec[s], h.win[s][m]);
      }
    }
  }

  lemma {:induction false} SlotTouched(run: seq<Obs>, m: nat, s: nat, sec: int, win: int)
    requires m < RUNGS && s < SLOTS && Clocked(run) && run != [] && SlotOk(sec, win, Front(run), m, s)
    requires Last(run).sec % 10 == s
    ensures SlotOk(Last(run).sec, ((if sec != Last(run).sec then 0 else win) + Last(run).counts[m]) % U32, run, m, s)
  {
    var q := Last(run).sec;
    if sec != q {
      assert SecSum(Front(run), m, q) == 0;
    }
    forall p | p > q && p % 10 == s ensures SecSum(run, m, p) == 0 {
      assert SecSum(Front(run), m, p) == 0;
    }
  }

  lemma {:induction false} SlotUntouched(run: seq<Obs>, m: nat, s: nat, sec: int, win: int)
    requires m < RUNGS && s < SLOTS && Clocked(run) && run != [] && SlotOk(sec, win, Front(run), m, s)
    requires Last(run).sec % 10 != s
    ensures SlotOk(sec, win, run, m, s)
  {
    forall p | p > sec && p % 10 == s ensures SecSum(run, m, p) == 0 {
      assert SecSum(Front(run), m, p) == 0;
    }
  }

  lemma {:induction false} NothingBefore(run: seq<Obs>, m: nat, q: int)
    requires m < RUNGS && q < 0
    ensures SecSum(run, m, q) == 0
  {
    if run != [] {
      NothingBefore(Front(run), m, q);
    }
  }

  /** What a slot contributes is the total of its second among the last ten,
      unless that is second 0. */
  lemma {:induction false} SlotContributes(run: seq<Obs>, m: nat, now: nat, s: nat, sec: int, win: int)
    requires m < RUNGS && s < SLOTS && Clocked(run) && ClockOf(run) <= now < U64 && SlotOk(sec, win, run, m, s)
    ensures var q := SecondOf(s, now);
            (if Live(sec, now) then win else 0) == if q == 0 then 0 else SecSum(run, m, q) % U32
    ensures SecondOf(s, now) == 0 <==> s == 0 && now < 10
  {
    var q := SecondOf(s, now);
    assert (now - sec) % U64 == now - sec;
    assert q % 10 == s && now - 10 < q <= now;
    if Live(sec, now) {
      OneSecond(s, now, sec);
    } else if q < 0 {
      NothingBefore(run, m, q);
    } else {
      assert q != 0 ==> q > sec;
    }
  }

  /** What of rung `m` in the last ten seconds arrived in second 0. */
  function Unseen(run: seq<Obs>, m: nat, now: nat): int
    requires m < RUNGS
  {
    if now < 10 then SecSum(run, m, 0) else 0
  }

  /** What the first `k` slots leave unseen. */
  function Left(run: seq<Obs>, m: nat, now: nat, k: nat): int
    requires m < RUNGS
  {
    if k == 0 then 0 else Unseen(run, m, now)
  }

  lemma {:induction false} ApiBySlots(run: seq<Obs>, m: nat, now: nat, k: nat)
    requires m < RUNGS && k <= SLOTS && Clocked(run) && ClockOf(run) <= now < U64
    ensures ApiSum(After(run), m, now, k) == (SlotSum(run, m, now, k) - Left(run, m, now, k)) % U32
  {
    if k > 0 {
      ApiBySlots(run, m, now, k - 1);
      var h := After(run);
      SlotHolds(run, m, k - 1);
      SlotContributes(run, m, now, k - 1, h.sec[k - 1], h.win[k - 1][m]);
      AddSlot(ApiSum(h, m, now, k - 1), ApiSum(h, m, now, k), Live(h.sec[k - 1], now), h.win[k - 1][m],
              SlotSum(run, m, now, k - 1), SecSum(run, m, SecondOf(k - 1, now)),
              Left(run, m, now, k - 1), Left(run, m, now, k), SecondOf(k - 1, now) == 0);
    }
  }

  /** One more slot adds its total, or leaves it unseen. */
  lemma {:induction false} AddSlot(api: int, api1: int, live: bool, win: int, sum: int, total: int, left: int, left1: int, zero: bool)
    requires api == (sum - left) % U32 && api1 == if live then (api + win) % U32 else api
    requires (if live then win else 0) == (if zero then 0 else total % U32)
    requires left1 == left + if zero then total else 0
    ensures api1 == (sum + total - left1) % U32
  {
    AddModulo(sum - left, total);
  }

  lemma {:induction false} AddModulo(a: int, b: int)
    ensures (a % U32 + b % U32) % U32 == (a + b) % U32
    ensures a % U32 == (a % U32 + 0) % U32
  {
  }

  /** For every clock that does not go back, after gaps of any length: the API
      reports, modulo 2^32, the total of exactly the last ten seconds but for
      second 0. So it agrees with the naive total if and only if second 0 is out
      of the window or brought nothing (modulo 2^32). */
  lemma {:induction false} SlotsAgreeWithNaive(run: seq<Obs>, m: nat, now: nat)
    requires m < RUNGS && Clocked(run) && ClockOf(run) <= now < U64
    ensures ApiSum(After(run), m, now, SLOTS) == (Naive(run, m, now) - Unseen(run, m, now)) % U32
    ensures ApiSum(After(run), m, now, SLOTS) == Naive(run, m, now) % U32 <==> now >= 10 || SecSum(run, m, 0) % U32 == 0
    ensures 0 <= Naive(run, m, now) < U32 && (now >= 10 || SecSum(run, m, 0) == 0) ==>
              ApiSum(After(run), m, now, SLOTS) == Naive(run, m, now)
  {
    NaiveBySlots(run, m, now);
    ApiBySlots(run, m, now, SLOTS);
    SameModuloIff(Naive(run, m, now), Unseen(run, m, now));
  }

  lemma {:induction false} SameModuloIff(a: int, b: int)
    ensures (a - b) % U32 == a % U32 <==> b % U32 == 0
  {
  }

  /** Second 0 is the mark of an empty slot: what arrives then is not reported. */
  lemma {:induction false} SecondZeroIsLost(m: nat, counts: Counts)
    requires m < RUNGS
    ensures Naive([Obs(0, counts)], m, 0) == counts[m] && ApiSum(After([Obs(0, counts)]), m, 0, SLOTS) == 0
  {
    var o := Obs(0, counts);
    assert Front([o]) == [] && Last([o]) == o;
    var run := [o];
    assert After(Front(run)) == Clear() && Naive(Front(run), m, 0) == 0;
    var h := After(run);
    assert h == Fold(Clear(), 0, counts);
    assert h.sec == Clear().sec[0 := 0] == Clear().sec;
    NoLive(h, m, 0, SLOTS);
  }

  lemma {:induction false} NoLive(h: Hist, m: nat, now: nat, k: nat)
    requires Shaped(h) && m < RUNGS && k <= SLOTS && h.sec == Clear().sec
    ensures ApiSum(h, m, now, k) == 0
  {
    if k > 0 {
      NoLive(h, m, now, k - 1);
    }
  }
}
