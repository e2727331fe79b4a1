/** Requests and ticks at the ground: which requests start a session and with what,
    that a session under way is not disturbed, and when its frames go out. */
module CsaRequests {
  import opened Runs
  import opened CsaText
  import opened CsaGround
  import opened CsaWorld

  // ---- One request

  /** Exactly the requests that start a session. */
  lemma {:induction false} AcceptedIff(g: Orch, scanning: bool, uplink: bool, q: Request)
    ensures AnswerTo(g, scanning, uplink, q) == Accepted <==>
              && g.phase == GIdle && !scanning && uplink && q.ifaces == Known
              && q.chan.Some? && 1 <= q.chan.value <= 200
              && (q.ht == Some("HT20") || q.ht == Some("HT40+") || q.ht == Some("HT40-"))
    ensures AnswerTo(g, scanning, uplink, q) == Conflict <==> g.phase != GIdle || scanning
    ensures AnswerTo(g, scanning, uplink, q) == NotFound ==> q.ifaces == Unknown
    ensures AnswerTo(g, scanning, uplink, q) == NoUplink ==> !uplink && q.ifaces == Known
  {
  }

  /** The given value kept within the limits, or the default. */
  predicate Limited(v: int, given: Option<int>, default: int, lo: int, hi: int) {
    match given
    case None => v == default
    case Some(n) => lo <= v <= hi && (lo <= n <= hi ==> v == n) && (n < lo ==> v == lo) && (n > hi ==> v == hi)
  }

  /** What an accepted request arms. */
  lemma {:induction false} ArmsAsAsked(g: Orch, q: Request, t: int)
    requires q.chan.Some? && q.ht.Some? && 0 <= g.sess < U32
    ensures var o := ArmedFor(g, q, t);
            && (exists lead :: Limited(lead, q.lead, 500, 100, 5000) && o.tSwitch == t + 1000 * lead)
            && (exists ms :: Limited(ms, q.tRevert, 3000, 500, 30000) && o.tRevert == o.tSwitch + 1000 * ms)
            && o.target.chan == q.chan.value && o.target.ht == q.ht.value
            && o.prev.ht == (match q.prevHt case None => "HT20" case Some(ht) => ht)
            && (o.noRevert <==> exists n :: n != 0 && q.noRevert == Some(n))
            && o.sess == (if g.sess == 0xffff_ffff then 0 else g.sess + 1)
  {
    var o := ArmedFor(g, q, t);
    assert Limited((o.tSwitch - t) / 1000, q.lead, 500, 100, 5000);
    assert Limited((o.tRevert - o.tSwitch) / 1000, q.tRevert, 3000, 500, 30000);
    if q.noRevert.Some? {
      assert q.noRevert == Some(q.noRevert.value);
    }
  }

  // ---- Requests and ticks in any order

  datatype Event = Ask(q: Request, scanning: bool, uplink: bool, t: int) | Supervise(i: Turn)

  function Next(g: Orch, e: Event): Orch {
    match e
    case Ask(q, scanning, uplink, t) =>
      if AnswerTo(g, scanning, uplink, q) == Accepted then ArmedFor(g, q, t) else g
    case Supervise(i) => AfterGround(g, i).0
  }

  function GroundAfter(g: Orch, run: seq<Event>): Orch {
    if run == [] then g else Next(GroundAfter(g, Front(run)), Last(run))
  }

  /** Every request comes while a session is under way. */
  predicate AllBusy(g: Orch, run: seq<Event>) {
    run != [] ==> AllBusy(g, Front(run)) && (Last(run).Ask? ==> GroundAfter(g, Front(run)).phase != GIdle)
  }

  function Ticks(run: seq<Event>): seq<Event> {
    if run == [] then [] else Ticks(Front(run)) + if Last(run).Ask? then [] else [Last(run)]
  }

  /** Requests during a session change nothing: the orchestrator is as if they had
      never come. */
  lemma {:induction false} BusyRefuses(g: Orch, run: seq<Event>)
    requires AllBusy(g, run)
    ensures GroundAfter(g, run) == GroundAfter(g, Ticks(run))
  {
    if run != [] {
      BusyRefuses(g, Front(run));
      var ticks := Ticks(Front(run));
      if Last(run).Ask? {
        assert Ticks(run) == ticks;
      } else {
        assert Ticks(run) == ticks + [Last(run)];
        assert Front(ticks + [Last(run)]) == ticks && Last(ticks + [Last(run)]) == Last(run);
      }
    }
  }

  /** The requests that started a session. */
  function Arms(g: Orch, run: seq<Event>): nat {
    if run == [] then 0
    else
      var e, before := Last(run), GroundAfter(g, Front(run));
      Arms(g, Front(run)) + if e.Ask? && AnswerTo(before, e.scanning, e.uplink, e.q) == Accepted then 1 else 0
  }

  /** Sessions are numbered one after another, round 2^32. */
  lemma {:induction false} SessionsCount(g: Orch, run: seq<Event>)
    requires 0 <= g.sess < U32
    ensures GroundAfter(g, run).sess == (g.sess + Arms(g, run)) % U32
  {
    if run != [] {
      SessionsCount(g, Front(run));
      NextSession(GroundAfter(g, Front(run)), Last(run));
      OneMore(g.sess + Arms(g, Front(run)));
    }
  }

  lemma {:induction false} OneMore(n: int)
    ensures (n % U32 + 1) % U32 == (n + 1) % U32
  {
  }

  lemma {:induction false} NextSession(g: Orch, e: Event)
    ensures Next(g, e).sess == if e.Ask? && AnswerTo(g, e.scanning, e.uplink, e.q) == Accepted then (g.sess + 1) % U32 else g.sess
  {
  }

  // ---- The burst

  /** Milliseconds to the switch, rounded down; 0 once it is due. */
  lemma {:induction false} DtIs(tSwitch: int, clock: int)
    ensures clock < tSwitch ==> 1000 * Dt(tSwitch, clock) <= tSwitch - clock < 1000 * Dt(tSwitch, clock) + 1000
    ensures clock >= tSwitch ==> Dt(tSwitch, clock) == 0
  {
  }

  /** The times of the ticks that sent a frame. */
  function SentAt(g: Orch, run: seq<Turn>): seq<int> {
    if run == [] then []
    else
      SentAt(g, Front(run))
        + if AfterGround(TicksAfter(g, Front(run)), Last(run)).1.Some? then [Last(run).t] else []
  }

  function TicksAfter(g: Orch, run: seq<Turn>): Orch {
    if run == [] then g else AfterGround(TicksAfter(g, Front(run)), Last(run)).0
  }

  /** No tick that should have sent a frame failed to. */
  predicate NoFailure(g: Orch, t0: int, run: seq<Turn>) {
    run != [] ==>
      NoFailure(g, t0, Front(run)) && (DueAt(t0, SentAt(g, Front(run)), Last(run).t) ==> Last(run).uplink && Last(run).sendOk)
  }

  /** A frame is due at arming and then every 20 ms, until five are out. */
  predicate DueAt(t0: int, sent: seq<int>, t: int) {
    |sent| < 5 && t >= if sent == [] then t0 else sent[|sent| - 1] + 20000
  }

  predicate InBurst(g: Orch, t0: int, sent: seq<int>) {
    && (g.phase == Burst <==> |sent| < 5)
    && (g.phase == Burst ==>
          && g.sent == |sent| && g.total == 5
          && g.nextFrame == (if sent == [] then t0 else sent[|sent| - 1] + 20000))
  }

  lemma {:induction false} BurstStep(g: Orch, t0: int, sent: seq<int>, i: Turn)
    requires InBurst(g, t0, sent) && (DueAt(t0, sent, i.t) ==> i.uplink && i.sendOk)
    ensures var (h, f, _) := AfterGround(g, i);
            && (f.Some? <==> DueAt(t0, sent, i.t))
            && InBurst(h, t0, sent + if f.Some? then [i.t] else [])
            && (f.Some? ==> f.value == FrameNow(g, i.clock))
  {
  }

  lemma {:induction false} BurstHolds(g: Orch, t0: int, run: seq<Turn>)
    requires JustArmed(g, t0) && NoFailure(g, t0, run)
    ensures InBurst(TicksAfter(g, run), t0, SentAt(g, run))
  {
    if run != [] {
      BurstHolds(g, t0, Front(run));
      BurstStep(TicksAfter(g, Front(run)), t0, SentAt(g, Front(run)), Last(run));
    }
  }

  /** In every run of ticks in which no sending fails, a tick sends a frame exactly
      when one is due: the first at once, then one every 20 ms, five in all. */
  lemma {:induction false} SendsIff(g: Orch, t0: int, run: seq<Turn>)
    requires JustArmed(g, t0) && run != [] && NoFailure(g, t0, run)
    ensures AfterGround(TicksAfter(g, Front(run)), Last(run)).1.Some? <==> DueAt(t0, SentAt(g, Front(run)), Last(run).t)
  {
    BurstHolds(g, t0, Front(run));
    BurstStep(TicksAfter(g, Front(run)), t0, SentAt(g, Front(run)), Last(run));
  }

  /** A due frame that does not go out ends the session at once. */
  lemma {:induction false} FailureEnds(g: Orch, t0: int, run: seq<Turn>)
    requires JustArmed(g, t0) && run != [] && NoFailure(g, t0, Front(run))
    requires DueAt(t0, SentAt(g, Front(run)), Last(run).t) && !(Last(run).uplink && Last(run).sendOk)
    ensures TicksAfter(g, run).phase == GIdle && SentAt(g, run) == SentAt(g, Front(run))
    ensures AfterGround(TicksAfter(g, Front(run)), Last(run)).2 == []
  {
    BurstHolds(g, t0, Front(run));
  }
}
