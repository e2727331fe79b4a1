/** Where the agreement of CsaAgreement ends: for each thing it needs, a run that
    leaves the radios apart without it. */
module CsaLimits {
  import opened Runs
  import opened CsaText
  import opened CsaFrame
  import opened CsaVehicle
  import opened CsaGround
  import opened CsaTiming
  import opened CsaWorld
  import opened CsaAgreement

  predicate Undecided(su: Setup, run: seq<Action>) {
    run != [] ==> Undecided(su, Front(run)) && !Decides(su, After(su, Front(run)), Last(run))
  }

  lemma {:induction false} UndecidedWorks(su: Setup, run: seq<Action>)
    requires Undecided(su, run)
    ensures Works(su, run)
  {
    if run != [] {
      UndecidedWorks(su, Front(run));
    }
  }

  /** A run goes on. */
  lemma {:induction false} Extend(su: Setup, run: seq<Action>, a: Action)
    requires Linked(su, run) && |run| < 100 && Possible(su, After(su, run), a) && Clock(su, run) <= a.t
    ensures Linked(su, run + [a]) && After(su, run + [a]) == Step(su, After(su, run), a) && Clock(su, run + [a]) == a.t
    ensures Undecided(su, run) && !Decides(su, After(su, run), a) ==> Undecided(su, run + [a])
    ensures Undecided(su, run) && After(su, run).heardG > 0 && After(su, run).heardV ==> Works(su, run + [a])
  {
    assert Front(run + [a]) == run;
    if Undecided(su, run) {
      UndecidedWorks(su, run);
    }
  }

  /** A tick whose frame, if one is due, goes out. */
  function Send(t: int): Action {
    GroundTick(t, t, true, true)
  }

  /** The world after `n` frames of the burst, none delivered. */
  predicate Bursting(su: Setup, w: World, n: nat) {
    && n <= 5
    && w.g == su.g.(sent := n, seqNo := n, nextFrame := su.t0 + 20000 * n, phase := if n < 5 then Burst else GArmed)
    && w.gTuned == su.home && w.vTuned == su.home && w.v == su.v && w.rx == su.rx0
    && w.heardG == 0 && !w.heardV
    && (n == 0 ==> w.sent == [])
    && (n > 0 ==> |w.sent| > 0 && w.sent[0] == Sent(FrameNow(su.g, su.t0), su.t0))
  }

  predicate Uneventful(su: Setup, run: seq<Action>) {
    Linked(su, run) && Undecided(su, run)
  }

  lemma {:induction false} BurstRun(su: Setup, n: nat) returns (run: seq<Action>)
    requires Ready(su) && n <= 5
    ensures Uneventful(su, run) && Bursting(su, After(su, run), n)
    ensures |run| == n && Clock(su, run) == su.t0 + if n > 0 then 20000 * (n - 1) else 0
  {
    if n == 0 {
      run := [];
    } else {
      var before := BurstRun(su, n - 1);
      var a := Send(su.t0 + 20000 * (n - 1));
      SendStep(su, After(su, before), a, n - 1);
      Extend(su, before, a);
      run := before + [a];
    }
  }

  lemma {:induction false} SendStep(su: Setup, w: World, a: Action, n: nat)
    requires Ready(su) && n < 5 && a == Send(su.t0 + 20000 * n) && Bursting(su, w, n)
    ensures Possible(su, w, a) && !Decides(su, w, a) && Bursting(su, Step(su, w, a), n + 1)
  {
  }

  /** The ground hops once the burst is out. */
  lemma {:induction false} HopAfterBurst(su: Setup, w: World, a: Action)
    requires Ready(su) && Bursting(su, w, 5) && a == Send(su.g.tSwitch)
    ensures Possible(su, w, a) && !Decides(su, w, a)
    ensures Step(su, w, a) == w.(g := w.g.(phase := GVerify, baseline := su.rx0), gTuned := su.g.target)
  {
  }

  /** All frames lost: the ground hops, hears nothing and goes to the armed
      previous channel, or stays if revert is off. */
  lemma {:induction false} LostRun(su: Setup) returns (run: seq<Action>)
    requires Ready(su)
    ensures Fair(su, run)
    ensures var w := After(su, run);
            w.g.phase == GIdle && w.v == su.v && w.vTuned == su.home
            && w.gTuned == if su.g.noRevert then su.g.target else su.g.prev
  {
    var burst := BurstRun(su, 5);
    var hop, last := Send(su.g.tSwitch), Send(su.g.tRevert);
    HopAfterBurst(su, After(su, burst), hop);
    Extend(su, burst, hop);
    var on := burst + [hop];
    Extend(su, on, last);
    run := on + [last];
  }

  // ---- A delivered frame

  /** The vehicle takes the session's first frame. */
  predicate Willing(su: Setup) {
    && (su.cfg.allowChan == [] || su.g.target.chan in su.cfg.allowChan)
    && (su.cfg.allowBw == [] || su.g.target.ht in su.cfg.allowBw)
    && !Cooling(su.v, su.cfg, LocalMs(su.t0, su.off))
  }

  /** The vehicle armed by the session's first frame, received at `t`. */
  predicate ArmedByFirst(su: Setup, v: State, t: int) {
    && v.st == Armed && Hop(v.targetChan, v.targetHt) == su.g.target
    && v.tSwitch == LocalMs(t, su.off) + Dt(su.g.tSwitch, su.t0)
    && v.tRevert == (su.g.tRevert - su.g.tSwitch) / 1000
  }

  lemma {:induction false} StillWilling(su: Setup, t: int)
    requires Willing(su) && su.t0 <= t
    ensures !Cooling(su.v, su.cfg, LocalMs(t, su.off))
  {
    assert LocalMs(su.t0, su.off) <= LocalMs(t, su.off);
  }

  lemma {:induction false} TakesFirst(su: Setup, c: Commit, t: int)
    requires Ready(su) && Willing(su) && su.t0 <= t && IsSessionCommit(su, c, su.t0)
    ensures ArmedByFirst(su, AfterRecv(su.v, su.cfg, CommitFrame(Some(c)), LocalMs(t, su.off)), t)
  {
    StillWilling(su, t);
  }

  lemma {:induction false} DeliverFirst(su: Setup, w: World, t: int) returns (a: Action)
    requires Ready(su) && Willing(su) && su.g.prev == su.home
    requires w.v == su.v && |w.sent| > 0 && w.sent[0] == Sent(FrameNow(su.g, su.t0), su.t0)
    requires w.gTuned == su.home == w.vTuned && su.t0 <= t < su.g.tSwitch
    ensures a.Deliver? && a.t == t && Possible(su, w, a)
    ensures var x := Step(su, w, a); x == w.(v := x.v) && ArmedByFirst(su, x.v, t)
  {
    var s := w.sent[0];
    FrameIsSession(su, su.g, su.t0);
    a := Deliver(t, 0);
    DeliveredCommit(su, s);
    TakesFirst(su, CommitOf(s.frame), t);
  }

  lemma {:induction false} HopsWhenDue(su: Setup, w: World, t: int, x: int)
    requires Ready(su) && su.t0 <= t && ArmedByFirst(su, w.v, t) && x >= su.g.tSwitch + (t - su.t0)
    ensures !Decides(su, w, VehicleTick(x))
    ensures var y := Step(su, w, VehicleTick(x));
            && y == w.(v := y.v, vTuned := su.g.target) && y.v.st == (if su.cfg.noRevert then Idle else Verify)
            && (y.v.st == Verify ==> y.v.sess == w.v.sess)
  {
    SwitchBounds(su.g.tSwitch, su.t0, t, su.off, x);
  }

  /** Without revert on the vehicle: one frame goes out, the ground gives up on
      the next, and the vehicle hops for good. */
  lemma {:induction false} StrandedRun(su: Setup) returns (run: seq<Action>)
    requires Ready(su) && Willing(su) && su.g.prev == su.home && su.cfg.noRevert
    ensures Fair(su, run)
    ensures var w := After(su, run);
            w.g.phase == GIdle && w.v.st == Idle && w.gTuned == su.home && w.vTuned == su.g.target
  {
    var first := BurstRun(su, 1);
    var got := DeliverFirst(su, After(su, first), su.t0 + 20000);
    Extend(su, first, got);
    var r2 := first + [got];
    var fail := GroundTick(su.t0 + 20000, su.t0 + 20000, true, false);
    Extend(su, r2, fail);
    var r3 := r2 + [fail];
    var hop := VehicleTick(su.g.tSwitch + 20000);
    HopsWhenDue(su, After(su, r3), su.t0 + 20000, su.g.tSwitch + 20000);
    Extend(su, r3, hop);
    run := r3 + [hop];
  }

  lemma {:induction false} BurstThenDeliver(su: Setup) returns (run: seq<Action>)
    requires Ready(su) && Willing(su) && su.g.prev == su.home
    ensures Linked(su, run) && Undecided(su, run) && |run| == 6 && Clock(su, run) == su.t0 + 99000
    ensures var w := After(su, run);
            && w.g.phase == GArmed && SameSession(su, w.g) && w.gTuned == su.home && w.vTuned == su.home
            && w.rx == su.rx0 && w.heardG == 0 && !w.heardV && ArmedByFirst(su, w.v, su.t0 + 99000)
  {
    var burst := BurstRun(su, 5);
    var got := DeliverFirst(su, After(su, burst), su.t0 + 99000);
    Extend(su, burst, got);
    run := burst + [got];
  }

  lemma {:induction false} BothHop(su: Setup) returns (run: seq<Action>)
    requires Ready(su) && Willing(su) && su.g.prev == su.home && !su.cfg.noRevert
    ensures Linked(su, run) && Undecided(su, run) && |run| == 8 && Clock(su, run) == su.g.tSwitch + 99000
    ensures var w := After(su, run);
            && w.g.phase == GVerify && SameSession(su, w.g) && w.g.baseline == su.rx0 == w.rx
            && w.gTuned == su.g.target == w.vTuned && w.v.st == Verify && w.heardG == 0 && !w.heardV
  {
    var r1 := BurstThenDeliver(su);
    var hop := Send(su.g.tSwitch);
    Extend(su, r1, hop);
    var r2 := r1 + [hop];
    var vHop := VehicleTick(su.g.tSwitch + 99000);
    HopsWhenDue(su, After(su, r2), su.t0 + 99000, su.g.tSwitch + 99000);
    Extend(su, r2, vHop);
    run := r2 + [vHop];
  }

  /** Without an rx tunnel: everything works, the vehicle commits, and the
      ground, which cannot tell, goes back. */
  lemma {:induction false} DeafGroundRun(su: Setup) returns (run: seq<Action>)
    requires Ready(su) && Willing(su) && su.g.prev == su.home && su.g.target != su.home
    requires su.rx0.None? && !su.g.noRevert && !su.cfg.noRevert
    ensures Fair(su, run)
    ensures var w := After(su, run);
            w.g.phase == GIdle && w.v.st == Idle && w.gTuned == su.home && w.vTuned == su.g.target
  {
    var r1 := BothHop(su);
    var t := su.g.tSwitch + 99000;
    Extend(su, r1, VehicleHears(t));
    var r2 := r1 + [VehicleHears(t)];
    Extend(su, r2, GroundHears(t));
    var r3 := r2 + [GroundHears(t)];
    Extend(su, r3, Send(su.g.tRevert));
    run := r3 + [Send(su.g.tRevert)];
  }

  /** Exactly when the two parties always agree: the armed previous channel is
      the one they are on, the ground has an rx tunnel, and revert is enabled on
      both sides. */
  lemma {:induction false} AgreementIff(su: Setup)
    requires Ready(su) && Willing(su) && su.g.target != su.home
    ensures (forall run :: Fair(su, run) ==> Agreed(After(su, run))) <==> Sound(su)
  {
    if Sound(su) {
      forall run | Fair(su, run) ensures Agreed(After(su, run)) {
        Agreement(su, run);
      }
    } else if su.g.noRevert || su.g.prev != su.home {
      var run := LostRun(su);
      assert !Agreed(After(su, run));
    } else if su.cfg.noRevert {
      var run := StrandedRun(su);
      assert !Agreed(After(su, run));
    } else {
      var run := DeafGroundRun(su);
      assert !Agreed(After(su, run));
    }
  }

  /** So a request without prev_chan never gets the promise. */
  lemma {:induction false} OmittedPrevDisagrees(su: Setup, g: Orch, q: Request) returns (run: seq<Action>)
    requires Ready(su) && q.chan.Some? && q.ht.Some? && q.prevChan.None? && su.g == ArmedFor(g, q, su.t0)
    requires su.home.chan != q.chan.value
    ensures Fair(su, run) && !Agreed(After(su, run)) && After(su, run).gTuned.chan == q.chan.value
  {
    run := LostRun(su);
  }
}
