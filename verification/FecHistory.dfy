/** What a commit of the FEC controller says about the run before it. */
module FecHistory {
  import opened Runs
  import opened FecControl

  /** A frame, the end of a bitrate or MCS change, or an MCS drop. */
  datatype Event = Frame(now: int, size: int) | Settle(now: int, secs: real) | Boost(now: int)

  type Run = seq<Event>

  datatype State = State(c: Ctl, w: Window)

  function Next(cfg: Cfg, s: State, e: Event): State
    requires cfg.sizing.mtu > 0 && |s.w.ts| == |s.w.sizes|
  {
    match e
    case Frame(now, size) =>
      var w := Slide(cfg, s.w, size, now);
      State(Update(cfg, s.c, w.sizes, size, now).0, w)
    case Settle(now, secs) => s.(c := ArmSettle(s.c, now, secs))
    case Boost(now) => s.(c := ArmBoost(cfg, s.c, now))
  }

  function After(cfg: Cfg, run: Run): (s: State)
    requires cfg.sizing.mtu > 0
    ensures |s.w.ts| == |s.w.sizes|
  {
    if run == [] then State(START, EMPTY) else Next(cfg, After(cfg, Front(run)), Last(run))
  }

  /** A monotone clock that is never 0, inside 64 bits. */
  predicate Clocked(run: Run) {
    run != [] ==> Clocked(Front(run)) && 0 < Last(run).now < U64 && (Front(run) != [] ==> Last(Front(run)).now <= Last(run).now)
  }

  // ---- The tick an event brings

  /** What the gate sees, and the controller it sees it with. */
  function TickOf(cfg: Cfg, s: State, now: int, size: int): (Ctl, Tick)
    requires cfg.sizing.mtu > 0 && |s.w.ts| == |s.w.sizes|
  {
    Prepare(cfg, s.c, Headroom(cfg, Slide(cfg, s.w, size, now).sizes), size, now)
  }

  function OutcomeOf(cfg: Cfg, s: State, e: Event): Outcome
    requires cfg.sizing.mtu > 0 && |s.w.ts| == |s.w.sizes|
  {
    if e.Frame? then
      var (c, t) := TickOf(cfg, s, e.now, e.size);
      Gate(cfg, c, t, e.now).1
    else Suppressed
  }

  /** The outcomes of a run's events. */
  function Outcomes(cfg: Cfg, run: Run): (os: seq<Outcome>)
    requires cfg.sizing.mtu > 0
    ensures |os| == |run|
  {
    if run == [] then [] else Outcomes(cfg, Front(run)) + [OutcomeOf(cfg, After(cfg, Front(run)), Last(run))]
  }

  predicate ReachesGate(o: Outcome) {
    o == Steady || WantsDown(o) || WantsUp(o)
  }

  predicate WantsDown(o: Outcome) {
    o == WaitDown || o == KDown
  }

  predicate WantsUp(o: Outcome) {
    o == WaitUp || o == KUp
  }

  /** What the outcomes mean: a tick reaches the gate when it is neither the
      first decision, nor an edge, nor in a grace window; it wants k down when
      its candidate is below the current k. */
  lemma {:induction false} OutcomesMean(cfg: Cfg, c: Ctl, t: Tick, now: int)
    ensures var o := Gate(cfg, c, t, now).1;
            && (ReachesGate(o) <==> c.have && !t.boostEdge && !t.inGrace && !t.settled)
            && (WantsDown(o) <==> ReachesGate(o) && t.cand.k < c.current.k)
            && (WantsUp(o) <==> ReachesGate(o) && t.cand.k > c.current.k)
            && (Commits(o) ==> Gate(cfg, c, t, now).0.current == t.cand)
  {
  }

  // ---- The pending timers

  /** From event `i` on every tick at the gate wanted k below the current one,
      and nothing was committed. */
  predicate DownStretch(os: seq<Outcome>, i: nat) {
    && i < |os| && os[i] == WaitDown
    && forall j :: i <= j < |os| ==> !Commits(os[j]) && (ReachesGate(os[j]) ==> WantsDown(os[j]))
  }

  predicate UpStretch(os: seq<Outcome>, i: nat) {
    && i < |os| && os[i] == WaitUp
    && forall j :: i <= j < |os| ==> !Commits(os[j]) && (ReachesGate(os[j]) ==> WantsUp(os[j]))
  }

  ghost predicate DownExplained(run: Run, os: seq<Outcome>, since: int)
    requires |os| == |run|
  {
    since != 0 ==> exists i: nat :: DownStretch(os, i) && run[i].now == since
  }

  ghost predicate UpExplained(run: Run, os: seq<Outcome>, since: int)
    requires |os| == |run|
  {
    since != 0 ==> exists i: nat :: UpStretch(os, i) && run[i].now == since
  }

  /** How the gate leaves the timers. */
  predicate TimerStep(c: Ctl, o: Outcome, now: int, d: Ctl) {
    match o
    case WaitDown => d.downSince == (if c.downSince == 0 then now else c.downSince) && d.upSince == 0
    case WaitUp => d.upSince == (if c.upSince == 0 then now else c.upSince) && d.downSince == 0
    case Suppressed => d.downSince == c.downSince && d.upSince == c.upSince
    case _ => d.downSince == 0 && d.upSince == 0
  }

  lemma {:induction false} TimersStep(cfg: Cfg, s: State, e: Event)
    requires cfg.sizing.mtu > 0 && |s.w.ts| == |s.w.sizes|
    ensures TimerStep(s.c, OutcomeOf(cfg, s, e), e.now, Next(cfg, s, e).c)
  {
    if e.Frame? {
      var (c, t) := TickOf(cfg, s, e.now, e.size);
      assert c.downSince == s.c.downSince && c.upSince == s.c.upSince;
      GateTimers(cfg, c, t, e.now);
    }
  }

  lemma {:induction false} GateTimers(cfg: Cfg, c: Ctl, t: Tick, now: int)
    ensures var (d, o) := Gate(cfg, c, t, now); TimerStep(c, o, now, d)
  {
  }

  lemma {:induction false} DownOn(run: Run, os: seq<Outcome>, c: Ctl, o: Outcome, d: Ctl)
    requires run != [] && |os| == |run| - 1 && DownExplained(Front(run), os, c.downSince)
    requires TimerStep(c, o, Last(run).now, d)
    ensures DownExplained(run, os + [o], d.downSince)
  {
    if d.downSince != 0 {
      if c.downSince == 0 {
        assert DownStretch(os + [o], |os|);
      } else {
        var i: nat :| DownStretch(os, i) && Front(run)[i].now == c.downSince;
        assert DownStretch(os + [o], i);
      }
    }
  }

  lemma {:induction false} UpOn(run: Run, os: seq<Outcome>, c: Ctl, o: Outcome, d: Ctl)
    requires run != [] && |os| == |run| - 1 && UpExplained(Front(run), os, c.upSince)
    requires TimerStep(c, o, Last(run).now, d)
    ensures UpExplained(run, os + [o], d.upSince)
  {
    if d.upSince != 0 {
      if c.upSince == 0 {
        assert UpStretch(os + [o], |os|);
      } else {
        var i: nat :| UpStretch(os, i) && Front(run)[i].now == c.upSince;
        assert UpStretch(os + [o], i);
      }
    }
  }

  /** The two pending timers are never both set, and each is the time of the
      first tick of a stretch that wanted nothing but its direction. */
  lemma {:induction false} TimersHold(cfg: Cfg, run: Run)
    requires cfg.sizing.mtu > 0
    ensures var c := After(cfg, run).c;
            && DownExplained(run, Outcomes(cfg, run), c.downSince) && UpExplained(run, Outcomes(cfg, run), c.upSince)
            && (c.downSince == 0 || c.upSince == 0)
  {
    if run != [] {
      TimersHold(cfg, Front(run));
      var s, os := After(cfg, Front(run)), Outcomes(cfg, Front(run));
      TimersStep(cfg, s, Last(run));
      var o, d := OutcomeOf(cfg, s, Last(run)), Next(cfg, s, Last(run)).c;
      DownOn(run, os, s.c, o, d);
      UpOn(run, os, s.c, o, d);
    }
  }

  // ---- Commits

  /** The time of the last commit, which `lastUpdate` holds, and of the first
      frame. */
  predicate TimesKept(run: Run, os: seq<Outcome>, c: Ctl, now: int)
    requires |os| == |run|
  {
    && 0 <= c.lastUpdate <= now && 0 <= c.start <= now
    && (forall j :: 0 <= j < |run| && Commits(os[j]) ==> run[j].now <= c.lastUpdate)
    && (forall j :: 0 <= j < |run| ==> 0 < run[j].now <= now)
    && (forall j :: 0 <= j < |run| && run[j].Frame? ==> 0 < c.start <= run[j].now)
    && (forall j :: 0 <= j < |run| && run[j].Settle? ==> run[j].now + Micros(run[j].secs) <= c.graceUntil)
  }

  function ClockOf(run: Run): int {
    if run == [] then 0 else Last(run).now
  }

  /** What one event does to those times. */
  predicate TimeStep(c: Ctl, e: Event, o: Outcome, d: Ctl) {
    && (e.Frame? ==> d.start == if c.start == 0 then e.now else c.start)
    && (!e.Frame? ==> d.start == c.start && o == Suppressed)
    && d.lastUpdate == (if Commits(o) then e.now else c.lastUpdate)
    && d.graceUntil >= c.graceUntil && (e.Settle? ==> d.graceUntil >= e.now + Micros(e.secs))
  }

  lemma {:induction false} TimeSteps(cfg: Cfg, s: State, e: Event)
    requires cfg.sizing.mtu > 0 && |s.w.ts| == |s.w.sizes|
    ensures TimeStep(s.c, e, OutcomeOf(cfg, s, e), Next(cfg, s, e).c)
  {
    if e.Frame? {
      var (c, t) := TickOf(cfg, s, e.now, e.size);
      assert c.lastUpdate == s.c.lastUpdate && c.graceUntil == s.c.graceUntil;
      GateTimes(cfg, c, t, e.now);
    }
  }

  lemma {:induction false} GateTimes(cfg: Cfg, c: Ctl, t: Tick, now: int)
    ensures var (d, o) := Gate(cfg, c, t, now);
            d.start == c.start && d.graceUntil == c.graceUntil && d.lastUpdate == if Commits(o) then now else c.lastUpdate
  {
  }

  lemma {:induction false} TimesOn(run: Run, os: seq<Outcome>, c: Ctl, now: int, o: Outcome, d: Ctl)
    requires run != [] && |os| == |run| - 1 && TimesKept(Front(run), os, c, now)
    requires 0 <= now <= Last(run).now && 0 < Last(run).now && TimeStep(c, Last(run), o, d)
    ensures TimesKept(run, os + [o], d, Last(run).now)
  {
  }

  lemma {:induction false} TimesHold(cfg: Cfg, run: Run)
    requires cfg.sizing.mtu > 0 && Clocked(run)
    ensures TimesKept(run, Outcomes(cfg, run), After(cfg, run).c, ClockOf(run))
  {
    if run != [] {
      TimesHold(cfg, Front(run));
      var s, os := After(cfg, Front(run)), Outcomes(cfg, Front(run));
      TimeSteps(cfg, s, Last(run));
      TimesOn(run, os, s.c, ClockOf(Front(run)), OutcomeOf(cfg, s, Last(run)), Next(cfg, s, Last(run)).c);
    }
  }

  /** The commit that ends a run: the controller before it, its tick and what
      came out. */
  predicate Ends(cfg: Cfg, run: Run, c: Ctl, t: Tick, o: Outcome)
    requires cfg.sizing.mtu > 0
  {
    && run != [] && Last(run).Frame?
    && (c, t) == TickOf(cfg, After(cfg, Front(run)), Last(run).now, Last(run).size)
    && o == Gate(cfg, c, t, Last(run).now).1
  }

  /** The bookkeeping before the gate leaves timers and commit time alone. */
  lemma {:induction false} TickKeeps(cfg: Cfg, s: State, now: int, size: int)
    requires cfg.sizing.mtu > 0 && |s.w.ts| == |s.w.sizes|
    ensures var c := TickOf(cfg, s, now, size).0;
            c.downSince == s.c.downSince && c.upSince == s.c.upSince && c.lastUpdate == s.c.lastUpdate
  {
  }

  predicate Held(now: int, since: int, secs: real) {
    (now - since) as real >= secs * 1000000.0
  }

  lemma {:induction false} HeldIff(now: int, since: int, secs: real)
    requires 0 <= since <= now < U64
    ensures Held(now, since, secs) <==> !Shorter(now, since, secs)
  {
    assert Since(now, since) == now - since;
  }

  /** A k-down commit outside the edges: unless the dwell is 0, at some earlier
      tick, at least the dwell before, the gate wanted k down, and so did every
      tick that reached it since, with no commit in between. */
  lemma {:induction false} KDownHistory(cfg: Cfg, run: Run, c: Ctl, t: Tick)
    requires cfg.sizing.mtu > 0 && Clocked(run) && Ends(cfg, run, c, t, KDown)
    ensures t.cand.k < c.current.k
    ensures cfg.downDwell <= 0.0
            || exists i: nat :: DownStretch(Outcomes(cfg, Front(run)), i) && Held(Last(run).now, run[i].now, cfg.downDwell)
  {
    TimersHold(cfg, Front(run));
    TimesHold(cfg, Front(run));
    DwellDown(cfg, c, t, Last(run).now);
    TickKeeps(cfg, After(cfg, Front(run)), Last(run).now, Last(run).size);
    DownWitness(run, Outcomes(cfg, Front(run)), c.downSince, cfg.downDwell);
  }

  lemma {:induction false} DownWitness(run: Run, os: seq<Outcome>, since: int, dwell: real)
    requires run != [] && |os| == |run| - 1 && DownExplained(Front(run), os, since) && 0 <= Last(run).now < U64
    requires forall j :: 0 <= j < |run| - 1 ==> 0 <= Front(run)[j].now <= Last(run).now
    requires !Shorter(Last(run).now, if since == 0 then Last(run).now else since, dwell)
    ensures dwell <= 0.0 || exists i: nat :: DownStretch(os, i) && Held(Last(run).now, run[i].now, dwell)
  {
    if since != 0 {
      var i: nat :| DownStretch(os, i) && Front(run)[i].now == since;
      HeldIff(Last(run).now, run[i].now, dwell);
    }
  }

  lemma {:induction false} UpWitness(run: Run, os: seq<Outcome>, since: int, dwell: real)
    requires run != [] && |os| == |run| - 1 && UpExplained(Front(run), os, since) && 0 <= Last(run).now < U64
    requires forall j :: 0 <= j < |run| - 1 ==> 0 <= Front(run)[j].now <= Last(run).now
    requires !Shorter(Last(run).now, if since == 0 then Last(run).now else since, dwell)
    ensures dwell <= 0.0 || exists i: nat :: UpStretch(os, i) && Held(Last(run).now, run[i].now, dwell)
  {
    if since != 0 {
      var i: nat :| UpStretch(os, i) && Front(run)[i].now == since;
      HeldIff(Last(run).now, run[i].now, dwell);
    }
  }

  lemma {:induction false} CooldownWitness(run: Run, os: seq<Outcome>, c: Ctl, now: int, secs: real)
    requires run != [] && |os| == |run| - 1 && TimesKept(Front(run), os, c, now) && now <= Last(run).now < U64
    requires !Shorter(Last(run).now, c.lastUpdate, secs)
    ensures forall j :: 0 <= j < |os| && Commits(os[j]) ==> Held(Last(run).now, run[j].now, secs)
  {
    HeldIff(Last(run).now, c.lastUpdate, secs);
    forall j | 0 <= j < |os| && Commits(os[j]) ensures Held(Last(run).now, run[j].now, secs) {
      assert run[j] == Front(run)[j];
    }
  }

  lemma {:induction false} DwellDown(cfg: Cfg, c: Ctl, t: Tick, now: int)
    requires Gate(cfg, c, t, now).1 == KDown
    ensures t.cand.k < c.current.k && !Shorter(now, if c.downSince == 0 then now else c.downSince, cfg.downDwell)
  {
  }

  /** A k-up commit: the same upwards; it also clears the hysteresis and comes at
      least the cooldown after every earlier commit of any kind. */
  lemma {:induction false} KUpHistory(cfg: Cfg, run: Run, c: Ctl, t: Tick)
    requires cfg.sizing.mtu > 0 && Clocked(run) && Ends(cfg, run, c, t, KUp)
    ensures t.cand.k > c.current.k && t.cand.k - c.current.k >= cfg.kHystUp
    ensures cfg.upDwell <= 0.0
            || exists i: nat :: UpStretch(Outcomes(cfg, Front(run)), i) && Held(Last(run).now, run[i].now, cfg.upDwell)
    ensures var os := Outcomes(cfg, Front(run));
            forall j :: 0 <= j < |os| && Commits(os[j]) ==> Held(Last(run).now, run[j].now, cfg.cooldownUp)
  {
    TimersHold(cfg, Front(run));
    TimesHold(cfg, Front(run));
    DwellUp(cfg, c, t, Last(run).now);
    TickKeeps(cfg, After(cfg, Front(run)), Last(run).now, Last(run).size);
    UpWitness(run, Outcomes(cfg, Front(run)), c.upSince, cfg.upDwell);
    CooldownWitness(run, Outcomes(cfg, Front(run)), After(cfg, Front(run)).c, ClockOf(Front(run)), cfg.cooldownUp);
  }

  lemma {:induction false} DwellUp(cfg: Cfg, c: Ctl, t: Tick, now: int)
    requires Gate(cfg, c, t, now).1 == KUp
    ensures t.cand.k > c.current.k && t.cand.k - c.current.k >= cfg.kHystUp
    ensures !Shorter(now, if c.upSince == 0 then now else c.upSince, cfg.upDwell)
    ensures !Shorter(now, c.lastUpdate, cfg.cooldownUp)
  {
  }

  predicate FirstFrame(run: Run, i: nat) {
    i < |run| && run[i].Frame? && forall j :: 0 <= j < i ==> !run[j].Frame?
  }

  /** A later time falls in the startup grace if event `i` is the first frame, or
      in the settling time if it armed one. */
  predicate GraceFrom(cfg: Cfg, run: Run, i: nat, now: int) {
    && i < |run|
    && if run[i].Settle? then now < run[i].now + Micros(run[i].secs)
       else FirstFrame(run, i) && now - run[i].now < Micros(cfg.startupGrace)
  }

  /** Inside a grace window only boost edges commit. */
  lemma {:induction false} OnlyBoostInGrace(cfg: Cfg, run: Run, c: Ctl, t: Tick, o: Outcome, i: nat)
    requires cfg.sizing.mtu > 0 && Clocked(run) && Ends(cfg, run, c, t, o)
    requires GraceFrom(cfg, Front(run), i, Last(run).now)
    ensures o == BoostEdge || !Commits(o)
  {
    TimesHold(cfg, Front(run));
    if Front(run)[i].Frame? {
      StartIsFirst(cfg, Front(run), i);
    }
    GraceHolds(cfg, After(cfg, Front(run)), Last(run), c, t);
    NotInGrace(cfg, c, t, Last(run).now);
  }

  lemma {:induction false} GraceHolds(cfg: Cfg, s: State, e: Event, c: Ctl, t: Tick)
    requires cfg.sizing.mtu > 0 && |s.w.ts| == |s.w.sizes| && e.Frame? && (c, t) == TickOf(cfg, s, e.now, e.size)
    requires 0 <= s.c.start <= e.now < U64 && e.now > 0
    requires e.now < s.c.graceUntil || (s.c.start != 0 && e.now - s.c.start < Micros(cfg.startupGrace))
    ensures t.inGrace
  {
  }

  lemma {:induction false} NotInGrace(cfg: Cfg, c: Ctl, t: Tick, now: int)
    requires t.inGrace
    ensures var o := Gate(cfg, c, t, now).1; o == BoostEdge || !Commits(o)
  {
  }

  /** The start time is the first frame's. */
  lemma {:induction false} StartIsFirst(cfg: Cfg, run: Run, i: nat)
    requires cfg.sizing.mtu > 0 && Clocked(run) && FirstFrame(run, i)
    ensures After(cfg, run).c.start == run[i].now > 0
  {
    var s := After(cfg, Front(run));
    TimeSteps(cfg, s, Last(run));
    if i < |run| - 1 {
      assert Front(run)[i] == run[i];
      StartIsFirst(cfg, Front(run), i);
    } else {
      NoFrameNoStart(cfg, Front(run));
    }
  }

  lemma {:induction false} NoFrameNoStart(cfg: Cfg, run: Run)
    requires cfg.sizing.mtu > 0 && forall j :: 0 <= j < |run| ==> !run[j].Frame?
    ensures After(cfg, run).c.start == 0
  {
    if run != [] {
      NoFrameNoStart(cfg, Front(run));
      TimeSteps(cfg, After(cfg, Front(run)), Last(run));
    }
  }
}
