/** Both machines come back to idle, so the agreement is reached. */
module CsaReturn {
  import opened Runs
  import opened CsaVehicle
  import opened CsaGround
  import opened CsaTiming
  import opened CsaWorld
  import opened CsaAgreement

  // ---- The ground

  /** Ground ticks past the revert deadline, counting only those 20 ms or more
      after the last one counted. */
  datatype Pace = Pace(n: nat, last: int)

  function GroundPace(su: Setup, run: seq<Action>): Pace {
    if run == [] then Pace(0, su.g.tRevert - 20000) else PaceOn(GroundPace(su, Front(run)), Last(run))
  }

  function PaceOn(p: Pace, a: Action): Pace {
    if a.GroundTick? && a.t >= p.last + 20000 then Pace(p.n + 1, a.t) else p
  }

  /** Each counted tick finds a frame due, unless one went out since the last. */
  predicate Paced(su: Setup, g: Orch, p: Pace, now: int) {
    && p.last >= su.g.tRevert - 20000 && (p.n > 0 ==> su.g.tRevert <= p.last <= now)
    && match g.phase
       case Burst => g.sent < 5 && g.nextFrame <= now + 20000 && (p.n < g.sent || (p.n == g.sent && g.nextFrame <= p.last + 20000))
       case GIdle => true
       case _ => p.n == 0
  }

  lemma {:induction false} PaceStep(su: Setup, w: World, a: Action, p: Pace, now: int)
    requires Ready(su) && SameSession(su, w.g) && Paced(su, w.g, p, now) && now <= a.t
    ensures Paced(su, Step(su, w, a).g, PaceOn(p, a), a.t)
  {
  }

  lemma {:induction false} PaceHolds(su: Setup, run: seq<Action>)
    requires Ready(su) && Linked(su, run)
    ensures Paced(su, After(su, run).g, GroundPace(su, run), Clock(su, run))
  {
    if run != [] {
      PaceHolds(su, Front(run));
      SentFrames(su, Front(run));
      PaceStep(su, After(su, Front(run)), Last(run), GroundPace(su, Front(run)), Clock(su, Front(run)));
    }
  }

  // ---- The vehicle

  /** By then the vehicle's switch is due, however long the frame that armed it
      was under way. */
  function LastSwitch(su: Setup): int {
    2 * su.g.tSwitch - su.t0
  }

  /** The first vehicle tick at or after that time, and whether one came a
      revert time later still. */
  datatype Late = Early | Switched(at: int) | Settled

  function VehicleLate(su: Setup, run: seq<Action>): Late {
    if run == [] then Early else LateOn(su, VehicleLate(su, Front(run)), Last(run))
  }

  function LateOn(su: Setup, l: Late, a: Action): Late {
    if !a.VehicleTick? then l
    else
      match l
      case Early => if a.t >= LastSwitch(su) then Switched(a.t) else l
      case Switched(at) => if a.t >= at + (su.g.tRevert - su.g.tSwitch) then Settled else l
      case Settled => l
  }

  function Hold(su: Setup): int {
    (su.g.tRevert - su.g.tSwitch) / 1000
  }

  predicate LateInv(su: Setup, v: State, l: Late, now: int) {
    && (l.Switched? ==> LastSwitch(su) <= l.at <= now)
    && (l.Settled? ==> LastSwitch(su) <= now)
    && match v.st
       case Idle => true
       case Armed => l.Early? && v.tSwitch <= LocalMs(LastSwitch(su), su.off) && v.tRevert == Hold(su)
       case Verify =>
         !l.Settled? && v.tRevert <= LocalMs(if l.Early? then now else l.at, su.off) + Hold(su)
  }

  lemma {:induction false} HoldIsExact(su: Setup, t: int)
    requires Ready(su)
    ensures LocalMs(t + (su.g.tRevert - su.g.tSwitch), su.off) == LocalMs(t, su.off) + Hold(su)
  {
    assert su.g.tRevert - su.g.tSwitch == 1000 * Hold(su);
  }

  lemma {:induction false} MsMonotone(a: int, b: int, off: int)
    requires a <= b
    ensures LocalMs(a, off) <= LocalMs(b, off)
  {
  }

  lemma {:induction false} LateTick(su: Setup, w: World, a: Action, l: Late, now: int)
    requires Ready(su) && LateInv(su, w.v, l, now) && now <= a.t && a.VehicleTick?
    ensures LateInv(su, Step(su, w, a).v, LateOn(su, l, a), a.t)
  {
    MsMonotone(now, a.t, su.off);
    if a.t >= LastSwitch(su) {
      MsMonotone(LastSwitch(su), a.t, su.off);
    }
    if l.Switched? && a.t >= l.at + (su.g.tRevert - su.g.tSwitch) {
      HoldIsExact(su, l.at);
      MsMonotone(l.at + (su.g.tRevert - su.g.tSwitch), a.t, su.off);
    }
  }

  lemma {:induction false} LateDeliver(su: Setup, w: World, a: Action, l: Late, now: int)
    requires Ready(su) && LateInv(su, w.v, l, now) && now <= a.t && a.Deliver? && Possible(su, w, a)
    requires forall s :: s in w.sent ==> IsSessionFrame(su, s) && su.t0 <= s.at
    ensures LateInv(su, Step(su, w, a).v, l, a.t)
  {
    var s := w.sent[a.i];
    assert s in w.sent;
    SwitchBounds(su.g.tSwitch, s.at, a.t, su.off, LastSwitch(su));
    MsMonotone(now, a.t, su.off);
  }

  lemma {:induction false} SentLate(su: Setup, run: seq<Action>)
    requires Ready(su) && Linked(su, run)
    ensures forall s :: s in After(su, run).sent ==> su.t0 <= s.at
  {
    if run != [] {
      SentLate(su, Front(run));
      SentFrames(su, run);
    }
  }

  lemma {:induction false} LateHolds(su: Setup, run: seq<Action>)
    requires Ready(su) && Linked(su, run)
    ensures LateInv(su, After(su, run).v, VehicleLate(su, run), Clock(su, run))
  {
    if run != [] {
      var w, a, l, now := After(su, Front(run)), Last(run), VehicleLate(su, Front(run)), Clock(su, Front(run));
      LateHolds(su, Front(run));
      SentLate(su, Front(run));
      SentFrames(su, Front(run));
      MsMonotone(now, a.t, su.off);
      if a.VehicleTick? {
        LateTick(su, w, a, l, now);
      } else if a.Deliver? {
        LateDeliver(su, w, a, l, now);
      }
    }
  }

  /** In any run of the link, whatever is lost and whatever the target does:
      five ground ticks 20 ms apart past the revert deadline, a vehicle tick once
      the switch is due and one a revert time later bring both machines to idle;
      and then, under the promise's conditions, to the same channel. */
  lemma {:induction false} BothReturn(su: Setup, run: seq<Action>)
    requires Ready(su) && Linked(su, run)
    requires GroundPace(su, run).n >= 5 && VehicleLate(su, run) == Settled
    ensures var w := After(su, run); w.g.phase == GIdle && w.v.st == Idle
    ensures var w := After(su, run);
            Sound(su) && Fair(su, run) ==>
              w.gTuned == w.vTuned == if w.heardG > 0 && w.heardV then su.g.target else su.home
  {
    PaceHolds(su, run);
    LateHolds(su, run);
    if Sound(su) && Fair(su, run) {
      Agreement(su, run);
    }
  }
}
