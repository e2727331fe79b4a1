/** Exactly when a frame makes the FEC controller commit, and to what, told by the
    run alone: its frames, settling times, boosts and earlier commits, without the
    controller's timers and windows. */
module FecCommits {
  import opened Runs
  import opened FecControl
  import opened FecHistory

  // ---- The windows, told by the run

  /** The latest boost is still on. */
  predicate BoostOn(cfg: Cfg, run: Run, now: int) {
    && run != []
    && if Last(run).Boost? then cfg.boostSecs > 0.0 && now < Last(run).now + Micros(cfg.boostSecs)
       else BoostOn(cfg, Front(run), now)
  }

  /** Some settling time is not over. */
  predicate SettleOn(run: Run, now: int) {
    && run != []
    && ((Last(run).Settle? && now < Last(run).now + Micros(Last(run).secs)) || SettleOn(Front(run), now))
  }

  /** The time of the first frame; 0 when there was none. */
  function FirstFrameAt(run: Run): int {
    if run == [] then 0
    else if FirstFrameAt(Front(run)) == 0 && Last(run).Frame? then Last(run).now
    else FirstFrameAt(Front(run))
  }

  /** At the last frame of the run, if there was one, the boost was on. */
  predicate BoostedLast(cfg: Cfg, run: Run) {
    run != [] && if Last(run).Frame? then BoostOn(cfg, Front(run), Last(run).now) else BoostedLast(cfg, Front(run))
  }

  predicate SettlingLast(run: Run) {
    run != [] && if Last(run).Frame? then SettleOn(Front(run), Last(run).now) else SettlingLast(Front(run))
  }

  /** A boost since the last frame. */
  predicate BoostedSince(cfg: Cfg, run: Run) {
    run != [] && !Last(run).Frame? && ((Last(run).Boost? && cfg.boostSecs > 0.0) || BoostedSince(cfg, Front(run)))
  }

  predicate EndsInFrame(run: Run) {
    run != [] && Last(run).Frame?
  }

  /** The boost begins, or it is over, at the frame that ends the run. */
  predicate BoostTurns(cfg: Cfg, run: Run)
    requires EndsInFrame(run)
  {
    if BoostOn(cfg, Front(run), Last(run).now) then !BoostedLast(cfg, Front(run))
    else BoostedLast(cfg, Front(run)) || BoostedSince(cfg, Front(run))
  }

  /** The frame that ends the run falls in the startup grace or a settling time. */
  predicate InGrace(cfg: Cfg, run: Run)
    requires EndsInFrame(run)
  {
    Last(run).now - FirstFrameAt(run) < Micros(cfg.startupGrace) || SettleOn(Front(run), Last(run).now)
  }

  /** It is the first one after a settling time. */
  predicate SettleEnds(run: Run)
    requires EndsInFrame(run)
  {
    SettlingLast(Front(run)) && !SettleOn(Front(run), Last(run).now)
  }

  // ---- The controller's windows are those

  lemma {:induction false} BoostFades(cfg: Cfg, run: Run, now: int, later: int)
    requires BoostOn(cfg, run, later) && now <= later
    ensures BoostOn(cfg, run, now)
  {
    if !Last(run).Boost? {
      BoostFades(cfg, Front(run), now, later);
    }
  }

  ghost predicate WindowsKept(cfg: Cfg, run: Run, c: Ctl) {
    && c.start == FirstFrameAt(run) && c.wasBoosting == BoostedLast(cfg, run) && c.wasInGrace == SettlingLast(run)
    && (c.boostUntil != 0 <==> BoostedLast(cfg, run) || BoostedSince(cfg, run))
    && c.graceUntil >= 0
    && (forall now :: now >= ClockOf(run) ==> (Boosting(c, now) <==> BoostOn(cfg, run, now)))
    && (forall now :: now > 0 ==> (InSettle(c, now) <==> SettleOn(run, now)))
  }

  lemma {:induction false} WindowsHold(cfg: Cfg, run: Run)
    requires cfg.sizing.mtu > 0 && Clocked(run)
    ensures WindowsKept(cfg, run, After(cfg, run).c)
  {
    if run != [] {
      WindowsHold(cfg, Front(run));
      var s, e := After(cfg, Front(run)), Last(run);
      match e
      case Frame(now, size) =>
        GateKeeps(cfg, s, now, size);
        FrameKeeps(cfg, run, s.c, Next(cfg, s, e).c);
      case Settle(now, secs) => SettleKeeps(cfg, run, s.c);
      case Boost(now) => BoostKeeps(cfg, run, s.c);
    }
  }

  /** What a frame does to the windows. */
  predicate FrameStep(c: Ctl, now: int, d: Ctl) {
    && d.start == (if c.start == 0 then now else c.start)
    && d.boostUntil == (if c.boostUntil != 0 && !Boosting(c, now) then 0 else c.boostUntil)
    && d.wasBoosting == Boosting(c, now) && d.wasInGrace == InSettle(c, now) && d.graceUntil == c.graceUntil
  }

  lemma {:induction false} GateKeeps(cfg: Cfg, s: FecHistory.State, now: int, size: int)
    requires cfg.sizing.mtu > 0 && |s.w.ts| == |s.w.sizes|
    ensures FrameStep(s.c, now, Next(cfg, s, Frame(now, size)).c)
  {
    var (c, t) := TickOf(cfg, s, now, size);
    assert FrameStep(s.c, now, c);
    GateLeaves(cfg, c, t, now);
  }

  lemma {:induction false} GateLeaves(cfg: Cfg, c: Ctl, t: Tick, now: int)
    ensures var d := Gate(cfg, c, t, now).0;
            && d.start == c.start && d.boostUntil == c.boostUntil && d.wasBoosting == c.wasBoosting
            && d.wasInGrace == c.wasInGrace && d.graceUntil == c.graceUntil
  {
  }

  lemma {:induction false} FrameKeeps(cfg: Cfg, run: Run, c: Ctl, d: Ctl)
    requires EndsInFrame(run) && Clocked(run) && WindowsKept(cfg, Front(run), c) && FrameStep(c, Last(run).now, d)
    ensures WindowsKept(cfg, run, d)
  {
    var at := Last(run).now;
    assert ClockOf(Front(run)) <= at;
    forall now | now >= at ensures Boosting(d, now) <==> BoostOn(cfg, run, now) {
      if BoostOn(cfg, Front(run), now) {
        BoostFades(cfg, Front(run), at, now);
      }
    }
  }

  lemma {:induction false} SettleKeeps(cfg: Cfg, run: Run, c: Ctl)
    requires run != [] && Last(run).Settle? && Clocked(run) && WindowsKept(cfg, Front(run), c)
    ensures WindowsKept(cfg, run, ArmSettle(c, Last(run).now, Last(run).secs))
  {
    var d := ArmSettle(c, Last(run).now, Last(run).secs);
    forall now | now > 0 ensures InSettle(d, now) <==> SettleOn(run, now) {
      assert InSettle(c, now) <==> SettleOn(Front(run), now);
    }
  }

  lemma {:induction false} BoostKeeps(cfg: Cfg, run: Run, c: Ctl)
    requires run != [] && Last(run).Boost? && Clocked(run) && WindowsKept(cfg, Front(run), c)
    ensures WindowsKept(cfg, run, ArmBoost(cfg, c, Last(run).now))
  {
    var d := ArmBoost(cfg, c, Last(run).now);
    if cfg.boostSecs <= 0.0 {
      NeverBoosted(cfg, Front(run), ClockOf(Front(run)));
      forall now | now >= ClockOf(run) ensures !Boosting(d, now) {
        if Boosting(c, now) {
          NeverBoosted(cfg, Front(run), now);
        }
      }
    }
  }

  lemma {:induction false} NeverBoosted(cfg: Cfg, run: Run, now: int)
    requires cfg.boostSecs <= 0.0
    ensures !BoostOn(cfg, run, now)
  {
    if run != [] {
      NeverBoosted(cfg, Front(run), now);
    }
  }

  /** What the gate is told, told by the run. */
  lemma {:induction false} TickTold(cfg: Cfg, run: Run, c: Ctl, t: Tick)
    requires cfg.sizing.mtu > 0 && Clocked(run) && EndsInFrame(run)
    requires (c, t) == TickOf(cfg, After(cfg, Front(run)), Last(run).now, Last(run).size)
    ensures t.boostEdge <==> BoostTurns(cfg, run)
    ensures t.inGrace <==> InGrace(cfg, run)
    ensures t.settled <==> SettleEnds(run)
  {
    FlagsOf(cfg, After(cfg, Front(run)), Last(run).now, Last(run).size);
    WindowsHold(cfg, Front(run));
    StartTold(cfg, run);
    FlagsTold(cfg, run, After(cfg, Front(run)).c, Last(run).now, t);
  }

  /** What the gate is told, in the controller's fields. */
  predicate Flags(cfg: Cfg, c: Ctl, now: int, t: Tick) {
    && t.boostEdge == ((Boosting(c, now) && !c.wasBoosting) || (c.boostUntil != 0 && !Boosting(c, now)))
    && t.inGrace == (Since(now, if c.start == 0 then now else c.start) < Micros(cfg.startupGrace) || InSettle(c, now))
    && t.settled == (c.wasInGrace && !InSettle(c, now))
  }

  lemma {:induction false} FlagsOf(cfg: Cfg, s: FecHistory.State, now: int, size: int)
    requires cfg.sizing.mtu > 0 && |s.w.ts| == |s.w.sizes|
    ensures Flags(cfg, s.c, now, TickOf(cfg, s, now, size).1)
  {
  }

  lemma {:induction false} FlagsTold(cfg: Cfg, run: Run, c: Ctl, now: int, t: Tick)
    requires EndsInFrame(run) && Clocked(run) && now == Last(run).now && 0 < FirstFrameAt(run) <= now
    requires WindowsKept(cfg, Front(run), c) && Flags(cfg, c, now, t)
    ensures t.boostEdge <==> BoostTurns(cfg, run)
    ensures t.inGrace <==> InGrace(cfg, run)
    ensures t.settled <==> SettleEnds(run)
  {
    assert ClockOf(Front(run)) <= now;
    assert Boosting(c, now) <==> BoostOn(cfg, Front(run), now);
    assert InSettle(c, now) <==> SettleOn(Front(run), now);
    assert Since(now, FirstFrameAt(run)) == now - FirstFrameAt(run);
  }

  lemma {:induction false} StartTold(cfg: Cfg, run: Run)
    requires Clocked(run)
    ensures 0 <= FirstFrameAt(run) <= ClockOf(run) && (EndsInFrame(run) ==> FirstFrameAt(run) > 0)
  {
    if run != [] {
      StartTold(cfg, Front(run));
    }
  }

  // ---- What every event wanted, and whether it made a commit

  /** Aside: no frame, no decision yet, an edge, or inside a grace window. */
  datatype Desire = Aside | Lower | Same | Higher

  datatype Mark = Mark(desire: Desire, emitted: bool)

  function Candidate(cfg: Cfg, run: Run): FecSizing.Params
    requires cfg.sizing.mtu > 0 && EndsInFrame(run)
  {
    TickOf(cfg, After(cfg, Front(run)), Last(run).now, Last(run).size).1.cand
  }

  function DesireOf(cfg: Cfg, run: Run): Desire
    requires cfg.sizing.mtu > 0 && run != []
  {
    var s := After(cfg, Front(run)).c;
    if !EndsInFrame(run) || !s.have || BoostTurns(cfg, run) || InGrace(cfg, run) || SettleEnds(run) then Aside
    else
      var k := Candidate(cfg, run).k;
      if k < s.current.k then Lower else if k == s.current.k then Same else Higher
  }

  /** The last event made the controller emit new parameters. */
  predicate Emits(cfg: Cfg, run: Run)
    requires cfg.sizing.mtu > 0 && run != []
  {
    Commits(OutcomeOf(cfg, After(cfg, Front(run)), Last(run)))
  }

  function Marks(cfg: Cfg, run: Run): (ms: seq<Mark>)
    requires cfg.sizing.mtu > 0
    ensures |ms| == |run|
  {
    if run == [] then [] else Marks(cfg, Front(run)) + [Mark(DesireOf(cfg, run), Emits(cfg, run))]
  }

  /** Event `i` wanted `desire`, nothing was emitted from it on, and no later event
      wanted anything else. */
  predicate Stretch(ms: seq<Mark>, i: nat, desire: Desire) {
    && i < |ms| && ms[i].desire == desire
    && forall j :: i <= j < |ms| ==> !ms[j].emitted && (ms[j].desire == Aside || ms[j].desire == desire)
  }

  predicate MarkOf(m: Mark, o: Outcome) {
    && (m.desire == Aside <==> !ReachesGate(o)) && (m.desire == Lower <==> WantsDown(o)) && (m.desire == Higher <==> WantsUp(o))
    && (m.emitted <==> Commits(o))
  }

  lemma {:induction false} MarkIs(cfg: Cfg, run: Run)
    requires cfg.sizing.mtu > 0 && Clocked(run) && run != []
    ensures MarkOf(Mark(DesireOf(cfg, run), Emits(cfg, run)), OutcomeOf(cfg, After(cfg, Front(run)), Last(run)))
  {
    if EndsInFrame(run) {
      var s := After(cfg, Front(run));
      var (c, t) := TickOf(cfg, s, Last(run).now, Last(run).size);
      TickTold(cfg, run, c, t);
      OutcomesMean(cfg, c, t, Last(run).now);
      assert c.have == s.c.have && c.current == s.c.current;
    }
  }

  lemma {:induction false} MarksAre(cfg: Cfg, run: Run)
    requires cfg.sizing.mtu > 0 && Clocked(run)
    ensures forall j :: 0 <= j < |run| ==> MarkOf(Marks(cfg, run)[j], Outcomes(cfg, run)[j])
  {
    if run != [] {
      MarksAre(cfg, Front(run));
      MarkIs(cfg, run);
    }
  }

  // ---- The timers, told by the marks

  lemma {:induction false} StretchIs(ms: seq<Mark>, os: seq<Outcome>, i: nat)
    requires |ms| == |os| && forall j :: 0 <= j < |os| ==> MarkOf(ms[j], os[j])
    ensures Stretch(ms, i, Lower) <==> DownStretch(os, i)
    ensures Stretch(ms, i, Higher) <==> UpStretch(os, i)
  {
  }

  /** A stretch under way keeps its timer from its start on. */
  lemma {:induction false} StretchTimed(cfg: Cfg, run: Run, i: nat)
    requires cfg.sizing.mtu > 0 && Clocked(run)
    ensures Timed(run, Outcomes(cfg, run), i, After(cfg, run).c)
  {
    if run != [] {
      StretchTimed(cfg, Front(run), i);
      var s, os := After(cfg, Front(run)), Outcomes(cfg, Front(run));
      TimersStep(cfg, s, Last(run));
      TimedOn(run, os, i, s.c, OutcomeOf(cfg, s, Last(run)), Next(cfg, s, Last(run)).c);
    }
  }

  predicate Timed(run: Run, os: seq<Outcome>, i: nat, c: Ctl)
    requires |os| == |run|
  {
    && 0 <= c.downSince <= ClockOf(run) && 0 <= c.upSince <= ClockOf(run)
    && (DownStretch(os, i) ==> 0 < c.downSince <= run[i].now)
    && (UpStretch(os, i) ==> 0 < c.upSince <= run[i].now)
  }

  lemma {:induction false} TimedOn(run: Run, os: seq<Outcome>, i: nat, c: Ctl, o: Outcome, d: Ctl)
    requires Clocked(run) && run != [] && |os| == |run| - 1 && Timed(Front(run), os, i, c)
    requires TimerStep(c, o, Last(run).now, d)
    ensures Timed(run, os + [o], i, d)
  {
    ShorterStretch(os, o, i);
    assert 0 <= ClockOf(Front(run)) <= Last(run).now;
  }

  lemma {:induction false} ShorterStretch(os: seq<Outcome>, o: Outcome, i: nat)
    ensures DownStretch(os + [o], i) ==> (if i < |os| then DownStretch(os, i) && (o == Suppressed || o == WaitDown) else o == WaitDown)
    ensures UpStretch(os + [o], i) ==> (if i < |os| then UpStretch(os, i) && (o == Suppressed || o == WaitUp) else o == WaitUp)
  {
    if i < |os| {
      assert forall j :: 0 <= j < |os| ==> (os + [o])[j] == os[j];
      assert (os + [o])[|os|] == o;
    }
  }

  /** A stretch of a desire that has lasted `dwell`. */
  ghost predicate Lasted(cfg: Cfg, run: Run, desire: Desire, dwell: real)
    requires cfg.sizing.mtu > 0 && run != []
  {
    dwell <= 0.0
    || exists i: nat :: Stretch(Marks(cfg, Front(run)), i, desire) && Held(Last(run).now, run[i].now, dwell)
  }

  /** The gate's test on its timer is that. */
  lemma {:induction false} LastedIff(cfg: Cfg, run: Run)
    requires cfg.sizing.mtu > 0 && Clocked(run) && run != []
    ensures var c, now := After(cfg, Front(run)).c, Last(run).now;
            && (Lasted(cfg, run, Lower, cfg.downDwell) <==> !Shorter(now, if c.downSince == 0 then now else c.downSince, cfg.downDwell))
            && (Lasted(cfg, run, Higher, cfg.upDwell) <==> !Shorter(now, if c.upSince == 0 then now else c.upSince, cfg.upDwell))
  {
    var before := Front(run);
    MarksAre(cfg, before);
    TimersHold(cfg, before);
    StretchTimed(cfg, before, 0);
    forall i: nat ensures Stretch(Marks(cfg, before), i, Lower) <==> DownStretch(Outcomes(cfg, before), i)
      ensures Stretch(Marks(cfg, before), i, Higher) <==> UpStretch(Outcomes(cfg, before), i)
    {
      StretchIs(Marks(cfg, before), Outcomes(cfg, before), i);
    }
    forall i: nat ensures DownStretch(Outcomes(cfg, before), i) ==> 0 < After(cfg, before).c.downSince <= before[i].now
      ensures UpStretch(Outcomes(cfg, before), i) ==> 0 < After(cfg, before).c.upSince <= before[i].now
    {
      StretchTimed(cfg, before, i);
    }
    TimerLasted(run, Marks(cfg, before), Lower, After(cfg, before).c.downSince, cfg.downDwell);
    TimerLasted(run, Marks(cfg, before), Higher, After(cfg, before).c.upSince, cfg.upDwell);
  }

  lemma {:induction false} TimerLasted(run: Run, ms: seq<Mark>, desire: Desire, since: int, dwell: real)
    requires run != [] && |ms| == |run| - 1 && 0 <= since <= Last(run).now < U64
    requires since != 0 ==> exists i: nat :: Stretch(ms, i, desire) && run[i].now == since
    requires forall i: nat :: Stretch(ms, i, desire) ==> 0 < since <= run[i].now
    ensures (dwell <= 0.0 || exists i: nat :: Stretch(ms, i, desire) && Held(Last(run).now, run[i].now, dwell))
            <==> !Shorter(Last(run).now, if since == 0 then Last(run).now else since, dwell)
  {
    var now := Last(run).now;
    if since == 0 {
      HeldIff(now, now, dwell);
    } else {
      HeldIff(now, since, dwell);
    }
  }

  // ---- Exactly when

  /** The controller has decided once some frame came outside every grace window. */
  predicate Decided(cfg: Cfg, run: Run) {
    run != [] && ((Last(run).Frame? && !InGrace(cfg, run)) || Decided(cfg, Front(run)))
  }

  lemma {:induction false} HaveIff(cfg: Cfg, run: Run)
    requires cfg.sizing.mtu > 0 && Clocked(run)
    ensures After(cfg, run).c.have <==> Decided(cfg, run)
  {
    if run != [] {
      HaveIff(cfg, Front(run));
      var s := After(cfg, Front(run));
      if EndsInFrame(run) {
        var (c, t) := TickOf(cfg, s, Last(run).now, Last(run).size);
        TickTold(cfg, run, c, t);
        GateHas(cfg, c, t, Last(run).now);
      }
    }
  }

  lemma {:induction false} GateHas(cfg: Cfg, c: Ctl, t: Tick, now: int)
    ensures Gate(cfg, c, t, now).0.have <==> c.have || !t.inGrace
  {
  }

  predicate Differs(p: FecSizing.Params, q: FecSizing.Params) {
    p.k != q.k || p.n != q.n
  }

  /** Every commit so far is at least `secs` old. */
  predicate AllHeld(cfg: Cfg, run: Run, secs: real)
    requires cfg.sizing.mtu > 0 && run != []
  {
    var ms := Marks(cfg, Front(run));
    forall j :: 0 <= j < |ms| && ms[j].emitted ==> Held(Last(run).now, run[j].now, secs)
  }

  /** The last commit's time is that of a commit. */
  lemma {:induction false} LastCommit(cfg: Cfg, run: Run)
    requires cfg.sizing.mtu > 0 && Clocked(run)
    ensures var c, ms := After(cfg, run).c, Marks(cfg, run);
            c.have ==> exists j :: 0 <= j < |run| && ms[j].emitted && run[j].now == c.lastUpdate
  {
    if run != [] {
      LastCommit(cfg, Front(run));
      var s, ms := After(cfg, Front(run)), Marks(cfg, Front(run));
      TimeSteps(cfg, s, Last(run));
      var d := After(cfg, run).c;
      assert Marks(cfg, run)[|ms|].emitted == Emits(cfg, run);
      FirstEmits(cfg, run);
      if d.have && !Emits(cfg, run) {
        var j :| 0 <= j < |ms| && ms[j].emitted && Front(run)[j].now == s.c.lastUpdate;
        assert Marks(cfg, run)[j] == ms[j] && run[j] == Front(run)[j];
      }
    }
  }

  /** What a commit leaves: its candidate; and what is left without one. */
  lemma {:induction false} FirstEmits(cfg: Cfg, run: Run)
    requires cfg.sizing.mtu > 0 && run != []
    ensures var s, d := After(cfg, Front(run)).c, After(cfg, run).c;
            if Emits(cfg, run) then EndsInFrame(run) && d.have && d.current == Candidate(cfg, run)
            else d.have == s.have && d.current == s.current
  {
    if EndsInFrame(run) {
      var s := After(cfg, Front(run));
      var (c, t) := TickOf(cfg, s, Last(run).now, Last(run).size);
      assert c.have == s.c.have && c.current == s.c.current;
      GateLeavesCurrent(cfg, c, t, Last(run).now);
    }
  }

  lemma {:induction false} GateLeavesCurrent(cfg: Cfg, c: Ctl, t: Tick, now: int)
    ensures var (d, o) := Gate(cfg, c, t, now);
            if Commits(o) then d.have && d.current == t.cand else d.have == c.have && d.current == c.current
  {
  }

  /** When a frame should make the controller emit its candidate. */
  ghost predicate Due(cfg: Cfg, run: Run, have: bool, current: FecSizing.Params)
    requires cfg.sizing.mtu > 0 && EndsInFrame(run)
  {
    var cand := Candidate(cfg, run);
    if !have then !InGrace(cfg, run)
    else if BoostTurns(cfg, run) then Differs(cand, current)
    else if InGrace(cfg, run) then false
    else if SettleEnds(run) then Differs(cand, current)
    else if cand.k < current.k then Lasted(cfg, run, Lower, cfg.downDwell)
    else
      && cand.k > current.k && cand.k - current.k >= cfg.kHystUp
      && Lasted(cfg, run, Higher, cfg.upDwell) && AllHeld(cfg, run, cfg.cooldownUp)
  }

  /** For every run that ends in a frame: that frame commits if and only if it is
      the first outside the grace windows; or the boost begins or ends at it, or a
      settling time has ended, and the size differs; or, outside all windows, k has
      been wanted lower for the dwell; or higher, by the hysteresis, for its dwell
      and with the cooldown over since every commit. A commit takes the candidate,
      and nothing else changes the parameters. */
  lemma {:induction false} CommitIff(cfg: Cfg, run: Run)
    requires cfg.sizing.mtu > 0 && Clocked(run) && EndsInFrame(run)
    ensures Emits(cfg, run) <==> Due(cfg, run, Decided(cfg, Front(run)), After(cfg, Front(run)).c.current)
    ensures After(cfg, run).c.current == if Emits(cfg, run) then Candidate(cfg, run) else After(cfg, Front(run)).c.current
  {
    var s, now := After(cfg, Front(run)), Last(run).now;
    var (c, t) := TickOf(cfg, s, now, Last(run).size);
    HaveIff(cfg, Front(run));
    FirstEmits(cfg, run);
    TickTold(cfg, run, c, t);
    LastedIff(cfg, run);
    CooldownIff(cfg, run);
    TickKeeps(cfg, s, now, Last(run).size);
    assert c.have == s.c.have && c.current == s.c.current;
    GateIff(cfg, c, t, now);
  }

  lemma {:induction false} CooldownIff(cfg: Cfg, run: Run)
    requires cfg.sizing.mtu > 0 && Clocked(run) && run != []
    ensures var c := After(cfg, Front(run)).c;
            c.have ==> (AllHeld(cfg, run, cfg.cooldownUp) <==> !Shorter(Last(run).now, c.lastUpdate, cfg.cooldownUp))
  {
    var before := Front(run);
    LastCommit(cfg, before);
    TimesHold(cfg, before);
    MarksAre(cfg, before);
    HeldIff(Last(run).now, After(cfg, before).c.lastUpdate, cfg.cooldownUp);
    LatestDecides(run, Marks(cfg, before), After(cfg, before).c, cfg.cooldownUp);
  }

  lemma {:induction false} LatestDecides(run: Run, ms: seq<Mark>, c: Ctl, secs: real)
    requires run != [] && |ms| == |run| - 1
    requires forall j :: 0 <= j < |ms| && ms[j].emitted ==> Front(run)[j].now <= c.lastUpdate
    requires c.have ==> exists j :: 0 <= j < |ms| && ms[j].emitted && Front(run)[j].now == c.lastUpdate
    ensures c.have ==> ((forall j :: 0 <= j < |ms| && ms[j].emitted ==> Held(Last(run).now, run[j].now, secs))
                        <==> Held(Last(run).now, c.lastUpdate, secs))
  {
    assert forall j :: 0 <= j < |ms| ==> run[j] == Front(run)[j];
  }

  lemma {:induction false} GateIff(cfg: Cfg, c: Ctl, t: Tick, now: int)
    ensures Commits(Gate(cfg, c, t, now).1) <==>
              if !c.have then !t.inGrace
              else if t.boostEdge then Differs(t.cand, c.current)
              else if t.inGrace then false
              else if t.settled then Differs(t.cand, c.current)
              else if t.cand.k < c.current.k then !Shorter(now, if c.downSince == 0 then now else c.downSince, cfg.downDwell)
              else
                && t.cand.k > c.current.k && t.cand.k - c.current.k >= cfg.kHystUp
                && !Shorter(now, if c.upSince == 0 then now else c.upSince, cfg.upDwell)
                && !Shorter(now, c.lastUpdate, cfg.cooldownUp)
  {
  }

  /** The candidate is the sizing of the new average with the headroom of the frames
      in the window, with the parity boosted while the boost is on. */
  lemma {:induction false} CandidateTold(cfg: Cfg, run: Run)
    requires cfg.sizing.mtu > 0 && Clocked(run) && EndsInFrame(run)
    ensures var s, now := After(cfg, Front(run)), Last(run).now;
            var avg := After(cfg, run).c.avg;
            var natural := FecSizing.Compute(cfg.sizing, avg, Headroom(cfg, After(cfg, run).w.sizes),
                                             if Decided(cfg, Front(run)) then s.c.current.ppf else 0);
            && Candidate(cfg, run) == (if BoostOn(cfg, Front(run), now) then FecSizing.Boosted(cfg.sizing, natural) else natural)
            && avg == Average(cfg, s.c.avg, Last(run).size)
            && After(cfg, run).w == Slide(cfg, s.w, Last(run).size, now)
  {
    var s, now := After(cfg, Front(run)), Last(run).now;
    HaveIff(cfg, Front(run));
    WindowsHold(cfg, Front(run));
    assert Boosting(s.c, now) <==> BoostOn(cfg, Front(run), now);
    var (c, t) := TickOf(cfg, s, now, Last(run).size);
    GateLeavesAverage(cfg, c, t, now);
  }

  lemma {:induction false} GateLeavesAverage(cfg: Cfg, c: Ctl, t: Tick, now: int)
    ensures Gate(cfg, c, t, now).0.avg == c.avg
  {
  }

  /** A pending target is set only with its timer, and to the k wanted last. */
  lemma {:induction false} TargetsFollow(cfg: Cfg, run: Run)
    requires cfg.sizing.mtu > 0 && Clocked(run)
    ensures var c := After(cfg, run).c; (c.downSince == 0 ==> c.downTarget == 0) && (c.upSince == 0 ==> c.upTarget == 0)
    ensures EndsInFrame(run) && !Emits(cfg, run) ==>
              var c := After(cfg, run).c;
              && (DesireOf(cfg, run) == Lower ==> c.downTarget == Candidate(cfg, run).k)
              && (DesireOf(cfg, run) == Higher ==> c.upTarget == Candidate(cfg, run).k)
  {
    if run != [] {
      TargetsFollow(cfg, Front(run));
      MarkIs(cfg, run);
      if EndsInFrame(run) {
        TickKeepsTargets(cfg, After(cfg, Front(run)), Last(run).now, Last(run).size);
        var (c, t) := TickOf(cfg, After(cfg, Front(run)), Last(run).now, Last(run).size);
        GateTargets(cfg, c, t, Last(run).now);
      }
    }
  }

  lemma {:induction false} TickKeepsTargets(cfg: Cfg, s: FecHistory.State, now: int, size: int)
    requires cfg.sizing.mtu > 0 && |s.w.ts| == |s.w.sizes|
    ensures var c := TickOf(cfg, s, now, size).0;
            && c.downSince == s.c.downSince && c.downTarget == s.c.downTarget
            && c.upSince == s.c.upSince && c.upTarget == s.c.upTarget
  {
  }

  lemma {:induction false} GateTargets(cfg: Cfg, c: Ctl, t: Tick, now: int)
    requires now != 0 && (c.downSince == 0 ==> c.downTarget == 0) && (c.upSince == 0 ==> c.upTarget == 0)
    ensures var (d, o) := Gate(cfg, c, t, now);
            && (d.downSince == 0 ==> d.downTarget == 0) && (d.upSince == 0 ==> d.upTarget == 0)
            && (WantsDown(o) && !Commits(o) ==> d.downTarget == t.cand.k) && (WantsUp(o) && !Commits(o) ==> d.upTarget == t.cand.k)
  {
  }
}
