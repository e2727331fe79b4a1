/** A session that works, and any number of sessions one after another. */
module CsaSessions {
  import opened Runs
  import opened CsaVehicle
  import opened CsaGround
  import opened CsaWorld
  import opened CsaAgreement
  import opened CsaLimits
  import opened CsaReturn

  // ---- A run that works

  lemma {:induction false} ExtendAll(su: Setup, run: seq<Action>, a: Action)
    requires Linked(su, run) && Works(su, run) && |run| < 100 && Possible(su, After(su, run), a) && Clock(su, run) <= a.t
    requires Decides(su, After(su, run), a) ==> After(su, run).heardG > 0 && After(su, run).heardV
    ensures Linked(su, run + [a]) && Works(su, run + [a])
    ensures After(su, run + [a]) == Step(su, After(su, run), a) && Clock(su, run + [a]) == a.t
    ensures GroundPace(su, run + [a]) == PaceOn(GroundPace(su, run), a)
    ensures VehicleLate(su, run + [a]) == LateOn(su, VehicleLate(su, run), a)
  {
    assert Front(run + [a]) == run;
  }

  /** An idle machine's tick does nothing. */
  lemma {:induction false} IdleTicks(su: Setup, w: World, t: int)
    ensures w.g.phase == GIdle ==> Step(su, w, Send(t)) == w && !Decides(su, w, Send(t))
    ensures w.v.st == Idle ==> Step(su, w, VehicleTick(t)) == w && !Decides(su, w, VehicleTick(t))
  {
  }

  /** Both have hopped and heard each other on the target, before any deadline. */
  predicate Heard(su: Setup, run: seq<Action>) {
    var w := After(su, run);
    && Linked(su, run) && Works(su, run) && |run| == 10 && Clock(su, run) == su.g.tSwitch + 99000
    && w.g.phase == GVerify && SameSession(su, w.g) && w.rx.Some? && w.rx != w.g.baseline && w.g.baseline.Some?
    && w.v.st == Idle && w.gTuned == su.g.target == w.vTuned && w.heardG > 0 && w.heardV
  }

  lemma {:induction false} HeardRun(su: Setup) returns (run: seq<Action>)
    requires Ready(su) && Willing(su) && Sound(su) && su.g.target != su.home
    ensures Heard(su, run)
  {
    var r1 := BothHop(su);
    UndecidedWorks(su, r1);
    var t := su.g.tSwitch + 99000;
    ExtendAll(su, r1, VehicleHears(t));
    var r2 := r1 + [VehicleHears(t)];
    ExtendAll(su, r2, GroundHears(t));
    run := r2 + [GroundHears(t)];
  }

  /** Early in a run no late tick has been counted. */
  lemma {:induction false} NothingLate(su: Setup, run: seq<Action>)
    requires Ready(su) && Linked(su, run) && Clock(su, run) == su.g.tSwitch + 99000
    ensures GroundPace(su, run) == Pace(0, su.g.tRevert - 20000) && VehicleLate(su, run) == Early
  {
    PaceHolds(su, run);
    LateHolds(su, run);
    PaceStart(su, run);
  }

  lemma {:induction false} PaceStart(su: Setup, run: seq<Action>)
    ensures GroundPace(su, run).n == 0 ==> GroundPace(su, run).last == su.g.tRevert - 20000
  {
    if run != [] {
      PaceStart(su, Front(run));
    }
  }

  /** Committed on the target, `n` late ground ticks counted. */
  predicate Committed(su: Setup, run: seq<Action>, n: nat) {
    var w := After(su, run);
    && Linked(su, run) && Works(su, run) && |run| == 10 + n
    && Clock(su, run) == su.g.tRevert + 20000 * (n - 1) && GroundPace(su, run) == Pace(n, Clock(su, run))
    && VehicleLate(su, run) == Early
    && w.g.phase == GIdle && w.v.st == Idle && w.gTuned == su.g.target == w.vTuned && w.heardG > 0 && w.heardV
  }

  lemma {:induction false} CommittedRun(su: Setup, n: nat) returns (run: seq<Action>)
    requires Ready(su) && Willing(su) && Sound(su) && su.g.target != su.home && 1 <= n <= 5
    ensures Committed(su, run, n)
  {
    var a := Send(su.g.tRevert + 20000 * (n - 1));
    if n == 1 {
      var heard := HeardRun(su);
      NothingLate(su, heard);
      ExtendAll(su, heard, a);
      run := heard + [a];
    } else {
      var before := CommittedRun(su, n - 1);
      IdleTicks(su, After(su, before), a.t);
      ExtendAll(su, before, a);
      run := before + [a];
    }
  }

  /** A run that meets every condition of the agreement, hears both ways, and
      brings both machines to idle on the target. */
  lemma {:induction false} WorkingRun(su: Setup) returns (run: seq<Action>)
    requires Ready(su) && Willing(su) && Sound(su) && su.g.target != su.home
    ensures Fair(su, run) && Works(su, run) && GroundPace(su, run).n >= 5 && VehicleLate(su, run) == Settled
    ensures var w := After(su, run);
            && w.g.phase == GIdle && w.v.st == Idle && w.heardG > 0 && w.heardV
            && w.gTuned == su.g.target == w.vTuned
  {
    var r1 := CommittedRun(su, 5);
    var late := VehicleTick(su.g.tRevert + 5080000);
    IdleTicks(su, After(su, r1), late.t);
    ExtendAll(su, r1, late);
    var r2 := r1 + [late];
    var later := VehicleTick(late.t + (su.g.tRevert - su.g.tSwitch));
    IdleTicks(su, After(su, r2), later.t);
    ExtendAll(su, r2, later);
    run := r2 + [later];
  }

  // ---- Session after session

  /** Both machines idle on the same channel. */
  predicate Resting(w: World) {
    && w.g.phase == GIdle && w.v.st == Idle && w.gTuned == w.vTuned && KnownHt(w.gTuned.ht)
    && 0 <= w.g.sess < U32 && (w.rx.Some? ==> 0 <= w.rx.value < U32)
  }

  /** A switch request at time `t`, and the run that follows it. */
  datatype Arming = Arming(q: Request, uplink: bool, t: int, run: seq<Action>)

  /** The setup a request makes of a resting world. */
  function Armed(cfg: Cfg, off: int, w: World, a: Arming): Setup
    requires a.q.chan.Some? && a.q.ht.Some?
  {
    Setup(cfg, off, ArmedFor(w.g, a.q, a.t), a.t, w.gTuned, w.v, w.rx)
  }

  /** The request is accepted and names the channel the radios are on, revert is
      enabled, there is an rx tunnel, and the run is fair and goes on long enough. */
  predicate Proper(cfg: Cfg, off: int, w: World, a: Arming) {
    && AnswerTo(w.g, false, a.uplink, a.q) == Accepted
    && var su := Armed(cfg, off, w, a);
       Sound(su) && Fair(su, a.run) && GroundPace(su, a.run).n >= 5 && VehicleLate(su, a.run) == Settled
  }

  lemma {:induction false} CounterStays(su: Setup, run: seq<Action>)
    requires su.rx0.Some? && 0 <= su.rx0.value < U32
    ensures var rx := After(su, run).rx; rx.Some? && 0 <= rx.value < U32
  {
    if run != [] {
      CounterStays(su, Front(run));
    }
  }

  lemma {:induction false} OneSession(cfg: Cfg, off: int, w: World, a: Arming)
    requires Resting(w) && Proper(cfg, off, w, a)
    ensures Resting(After(Armed(cfg, off, w, a), a.run))
  {
    var su := Armed(cfg, off, w, a);
    ArmingIsReady(w.g, a.q, a.uplink, a.t);
    BothReturn(su, a.run);
    SentFrames(su, a.run);
    CounterStays(su, a.run);
  }

  function AfterAll(cfg: Cfg, off: int, w: World, sessions: seq<Arming>): World
    decreases |sessions|
  {
    if sessions == [] then w
    else
      var v, a := AfterAll(cfg, off, w, Front(sessions)), Last(sessions);
      if a.q.chan.Some? && a.q.ht.Some? then After(Armed(cfg, off, v, a), a.run) else v
  }

  predicate AllProper(cfg: Cfg, off: int, w: World, sessions: seq<Arming>)
    decreases |sessions|
  {
    sessions != [] ==>
      AllProper(cfg, off, w, Front(sessions)) && Proper(cfg, off, AfterAll(cfg, off, w, Front(sessions)), Last(sessions))
  }

  /** Over any sequence of sessions the parties stay together: each one starts
      where the last one left both. */
  lemma {:induction false} AlwaysTogether(cfg: Cfg, off: int, w: World, sessions: seq<Arming>)
    requires Resting(w) && AllProper(cfg, off, w, sessions)
    ensures Resting(AfterAll(cfg, off, w, sessions))
    decreases |sessions|
  {
    if sessions != [] {
      AlwaysTogether(cfg, off, w, Front(sessions));
      OneSession(cfg, off, AfterAll(cfg, off, w, Front(sessions)), Last(sessions));
    }
  }
}
