/** Both machines end on the same channel. */
module CsaAgreement {
  import opened Runs
  import opened CsaFrame
  import opened CsaVehicle
  import opened CsaGround
  import opened CsaTiming
  import opened CsaWorld

  /** What the promise needs: revert enabled on both sides, an rx tunnel to
      listen on, and the armed previous channel being the one the radios are on. */
  predicate Sound(su: Setup) {
    su.g.prev == su.home && su.rx0.Some? && !su.g.noRevert && !su.cfg.noRevert
  }

  // ---- The invariant

  predicate GroundInv(su: Setup, w: World, now: int) {
    && SameSession(su, w.g)
    && (w.g.phase == Burst || w.g.phase == GArmed ==> w.gTuned == su.home)
    && (w.g.phase == GVerify ==>
          w.gTuned == su.g.target && now >= su.g.tSwitch
          && w.rx.Some? && w.g.baseline.Some? && w.rx.value == (w.g.baseline.value + w.heardG) % U32)
    && (w.g.phase == GIdle ==>
          w.gTuned == su.home
          || (w.gTuned == su.g.target && now >= su.g.tSwitch && w.heardG > 0 && w.heardV))
    && (w.g.baseline.Some? && w.g.phase == GVerify ==> 0 <= w.g.baseline.value < U32)
    && w.rx.Some? && 0 <= w.rx.value < U32
    && (w.heardG > 0 || w.heardV ==> w.gTuned == su.g.target)
  }

  predicate VehicleInv(su: Setup, w: World) {
    match w.v.st
    case Idle => w.vTuned == su.home || (w.vTuned == su.g.target && w.heardV)
    case Armed =>
      && w.vTuned == su.home && OnSession(su, w.v) && !w.heardV
      && w.v.tRevert == (su.g.tRevert - su.g.tSwitch) / 1000
      && 1000 * w.v.tSwitch - su.off > su.g.tSwitch - 2000
    case Verify =>
      && w.vTuned == su.g.target && OnSession(su, w.v) && !w.heardV
      && 1000 * w.v.tRevert - su.off > su.g.tSwitch
  }

  predicate OnSession(su: Setup, v: State) {
    Hop(v.targetChan, v.targetHt) == su.g.target && Hop(v.prevChan, v.prevHt) == su.home
  }

  predicate Inv(su: Setup, w: World, now: int) {
    && GroundInv(su, w, now) && VehicleInv(su, w)
    && (w.heardV ==> w.v.st == Idle && w.vTuned == su.g.target)
    && (forall i :: 0 <= i < |w.sent| ==> IsSessionFrame(su, w.sent[i]))
    && w.heardG < U32
  }

  /** What a step may rely on: the setup, the link, and that a decision comes
      after hearing both ways or not a thing was heard. */
  predicate StepOk(su: Setup, w: World, a: Action, now: int) {
    && Ready(su) && Sound(su) && su.g.target != su.home
    && Inv(su, w, now) && Possible(su, w, a) && su.t0 <= now <= a.t
    && w.heardG + 1 < U32
    && (Decides(su, w, a) ==> (w.heardG > 0 <==> w.heardV))
  }

  lemma {:induction false} GroundStep(su: Setup, w: World, a: Action, now: int)
    requires StepOk(su, w, a, now) && a.GroundTick?
    ensures Inv(su, Step(su, w, a), a.t)
  {
    var i := InputOf(w, a);
    FrameIsSession(su, w.g, a.clock);
  }

  lemma {:induction false} VehicleStep(su: Setup, w: World, a: Action, now: int)
    requires StepOk(su, w, a, now) && a.VehicleTick?
    ensures Inv(su, Step(su, w, a), a.t)
  {
  }

  lemma {:induction false} HearStep(su: Setup, w: World, a: Action, now: int)
    requires StepOk(su, w, a, now) && (a.VehicleHears? || a.GroundHears?)
    ensures Inv(su, Step(su, w, a), a.t)
  {
  }

  lemma {:induction false} DeliverStep(su: Setup, w: World, a: Action, now: int)
    requires StepOk(su, w, a, now) && a.Deliver?
    ensures Inv(su, Step(su, w, a), a.t)
  {
    var s := w.sent[a.i];
    DeliveredCommit(su, s);
    CommitStep(su, w, CommitOf(s.frame), s.at, a.t, now);
  }

  /** A session frame that arrives before the switch arms an idle vehicle in
      time, and moves nothing else. */
  lemma {:induction false} CommitStep(su: Setup, w: World, c: Commit, at: int, t: int, now: int)
    requires Ready(su) && Sound(su) && su.g.target != su.home && Inv(su, w, now) && now <= t
    requires IsSessionCommit(su, c, at) && at <= t < su.g.tSwitch && w.gTuned == w.vTuned
    ensures Inv(su, w.(v := AfterCommit(w.v, su.cfg, c, LocalMs(t, su.off))), t)
  {
    SwitchBounds(su.g.tSwitch, at, t, su.off, t);
  }

  lemma {:induction false} AnyStep(su: Setup, w: World, a: Action, now: int)
    requires StepOk(su, w, a, now)
    ensures Inv(su, Step(su, w, a), a.t)
  {
    match a
    case GroundTick(_, _, _, _) => GroundStep(su, w, a, now);
    case VehicleTick(_) => VehicleStep(su, w, a, now);
    case Deliver(_, _) => DeliverStep(su, w, a, now);
    case _ => HearStep(su, w, a, now);
  }

  lemma {:induction false} HeardCount(su: Setup, run: seq<Action>)
    ensures After(su, run).heardG <= |run|
  {
    if run != [] {
      HeardCount(su, Front(run));
    }
  }

  lemma {:induction false} StartInv(su: Setup)
    requires Ready(su) && Sound(su)
    ensures Inv(su, Start(su), su.t0)
  {
  }

  lemma {:induction false} FairFront(su: Setup, run: seq<Action>)
    requires Fair(su, run) && run != []
    ensures Fair(su, Front(run))
    ensures var w := After(su, Front(run)); Decides(su, w, Last(run)) ==> (w.heardG > 0 <==> w.heardV)
  {
  }

  /** Every run keeps the invariant. */
  lemma {:induction false} InvHolds(su: Setup, run: seq<Action>)
    requires Ready(su) && Sound(su) && su.g.target != su.home && Fair(su, run)
    ensures Inv(su, After(su, run), Clock(su, run)) && su.t0 <= Clock(su, run)
  {
    if run == [] {
      StartInv(su);
    } else {
      FairFront(su, run);
      InvHolds(su, Front(run));
      HeardCount(su, Front(run));
      AnyStep(su, After(su, Front(run)), Last(run), Clock(su, Front(run)));
    }
  }

  /** A "switch" to the channel both are on moves nobody. */
  predicate Unmoved(su: Setup, w: World) {
    && SameSession(su, w.g) && (forall s :: s in w.sent ==> IsSessionFrame(su, s))
    && w.gTuned == w.vTuned == su.home && (w.v.st == Idle || OnSession(su, w.v))
  }

  lemma {:induction false} UnmovedStep(su: Setup, w: World, a: Action)
    requires Ready(su) && su.g.prev == su.home == su.g.target && Unmoved(su, w) && Possible(su, w, a)
    requires a.GroundTick? ==> su.t0 <= a.clock
    ensures Unmoved(su, Step(su, w, a))
  {
    SentStep(su, w, a);
    if a.Deliver? {
      assert w.sent[a.i] in w.sent;
      DeliveredCommit(su, w.sent[a.i]);
    }
  }

  lemma {:induction false} StaysHome(su: Setup, run: seq<Action>)
    requires Ready(su) && su.g.prev == su.home == su.g.target && Linked(su, run)
    ensures Unmoved(su, After(su, run))
  {
    if run != [] {
      StaysHome(su, Front(run));
      SentFrames(su, run);
      UnmovedStep(su, After(su, Front(run)), Last(run));
    }
  }

  /** Two-party agreement: for every loss and delivery pattern, whenever both
      machines are idle both radios are on the same channel, and it is the
      target exactly when both sides have heard each other there. */
  lemma {:induction false} Agreement(su: Setup, run: seq<Action>)
    requires Ready(su) && Sound(su) && Fair(su, run)
    ensures Agreed(After(su, run))
    ensures var w := After(su, run);
            w.g.phase == GIdle && w.v.st == Idle ==>
              w.gTuned == if w.heardG > 0 && w.heardV then su.g.target else su.home
  {
    if su.g.target == su.home {
      StaysHome(su, run);
    } else {
      InvHolds(su, run);
    }
  }
}
