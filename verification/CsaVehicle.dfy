/** The vehicle's channel-switch receiver (vehicle/csa/csa.c): IDLE, ARMED and
    VERIFY, driven by datagrams and clock ticks. First what each operation does
    to the state and what holds over runs, then the receiver itself. */
module CsaVehicle {
  import opened Runs
  import opened CsaText
  import opened CsaFrame

  datatype Phase = Idle | Armed | Verify

  /** `tRevert` is a duration while ARMED and a deadline in VERIFY;
      `lastSwitch` is -1 before the first hop. */
  datatype State = State(st: Phase, sess: int, tSwitch: int, tRevert: int, targetChan: int, prevChan: int,
                         targetHt: string, prevHt: string, lastSwitch: int)

  /** Empty allowlists permit everything; a cooldown of 0 is off. */
  datatype Cfg = Cfg(allowChan: seq<int>, allowBw: seq<string>, cooldown: int, noRevert: bool)

  /** One call of `iw dev ... set channel`. */
  datatype Hop = Hop(chan: int, ht: string)

  const INITIAL := State(Idle, 0, 0, 0, 0, 0, "", "", -1)

  // ---- What the operations do to the state

  predicate TargetOk(cfg: Cfg, c: Commit) {
    && 1 <= c.targetChan <= 200
    && (cfg.allowChan == [] || c.targetChan in cfg.allowChan)
    && (cfg.allowBw == [] || c.targetHt in cfg.allowBw)
  }

  predicate Cooling(s: State, cfg: Cfg, now: int) {
    cfg.cooldown > 0 && s.lastSwitch >= 0 && now - s.lastSwitch < cfg.cooldown
  }

  /** A frame that ends VERIFY. */
  predicate Confirms(s: State, cfg: Cfg, c: Commit) {
    TargetOk(cfg, c) && s.st == Verify && c.sess == s.sess
  }

  /** A frame that starts a session. */
  predicate Accepts(s: State, cfg: Cfg, c: Commit, now: int) {
    && TargetOk(cfg, c) && !Confirms(s, cfg, c)
    && (s.st == Idle || c.sess > s.sess)
    && !Cooling(s, cfg, now)
  }

  /** C's conversion to a 32-bit int. */
  function Int32(n: int): (r: int)
    ensures -0x8000_0000 <= r < 0x8000_0000 && (r - n) % U32 == 0
    ensures -0x8000_0000 <= n < 0x8000_0000 ==> r == n
  {
    (n + 0x8000_0000) % U32 - 0x8000_0000
  }

  function ArmedBy(c: Commit, now: int, lastSwitch: int): State {
    State(Armed, c.sess, now + c.dt, c.tRevert, c.targetChan, Int32(c.prevChan), c.targetHt, c.prevHt, lastSwitch)
  }

  function AfterCommit(s: State, cfg: Cfg, c: Commit, now: int): State {
    if Confirms(s, cfg, c) then s.(st := Idle)
    else if Accepts(s, cfg, c, now) then ArmedBy(c, now, s.lastSwitch)
    else s
  }

  function AfterAlive(s: State): State {
    if s.st == Verify then s.(st := Idle) else s
  }

  /** One received datagram: csa_feed, then csa_link_alive if it was not taken. */
  function AfterRecv(s: State, cfg: Cfg, d: Datagram, now: int): State {
    match d
    case Foreign => AfterAlive(s)
    case OtherCsa => s
    case CommitFrame(None) => s
    case CommitFrame(Some(c)) => AfterCommit(s, cfg, c, now)
  }

  function AfterTick(s: State, cfg: Cfg, now: int): (State, Option<Hop>) {
    if s.st == Armed && now >= s.tSwitch then
      (if cfg.noRevert then s.(st := Idle, lastSwitch := now)
       else s.(st := Verify, tRevert := now + s.tRevert, lastSwitch := now),
       Some(Hop(s.targetChan, s.targetHt)))
    else if s.st == Verify && now >= s.tRevert then
      (s.(st := Idle, lastSwitch := now), Some(Hop(s.prevChan, s.prevHt)))
    else (s, None)
  }

  /** When csa_tick asks to be called again; 0 for no deadline. */
  function Deadline(s: State): int {
    match s.st
    case Idle => 0
    case Armed => s.tSwitch
    case Verify => s.tRevert
  }

  // ---- Runs

  datatype Event = Recv(at: int, datagram: Datagram) | Tick(at: int)

  type Run = seq<Event>

  function Next(s: State, cfg: Cfg, e: Event): State {
    match e
    case Recv(at, d) => AfterRecv(s, cfg, d, at)
    case Tick(at) => AfterTick(s, cfg, at).0
  }

  /** The state before the k-th event of a run from csa_init. */
  function Before(cfg: Cfg, es: Run, k: nat): State
    requires k <= |es|
  {
    if k == 0 then INITIAL else Next(Before(cfg, es, k - 1), cfg, es[k - 1])
  }

  function HopAt(cfg: Cfg, es: Run, k: nat): Option<Hop>
    requires k < |es|
  {
    match es[k]
    case Recv(_, _) => None
    case Tick(at) => AfterTick(Before(cfg, es, k), cfg, at).1
  }

  /** A monotone clock that is never negative. */
  predicate Clocked(es: Run) {
    && (forall i :: 0 <= i < |es| ==> es[i].at >= 0)
    && (forall i, j :: 0 <= i < j < |es| ==> es[i].at <= es[j].at)
  }

  predicate NoHop(cfg: Cfg, es: Run, i: nat, k: nat)
    requires k <= |es|
  {
    forall m :: i <= m < k ==> HopAt(cfg, es, m) == None
  }

  /** The well-formed csa_commit an event brings. */
  function FrameOf(e: Event): Option<Commit> {
    if e.Recv? && e.datagram.CommitFrame? then e.datagram.commit else None
  }

  /** Event `i` brings frame `c`, and it starts a session. */
  predicate ArmsAt(cfg: Cfg, es: Run, i: nat, c: Commit)
    requires i < |es|
  {
    FrameOf(es[i]) == Some(c) && Accepts(Before(cfg, es, i), cfg, c, es[i].at)
  }

  predicate Arms(cfg: Cfg, es: Run, i: nat)
    requires i < |es|
  {
    FrameOf(es[i]).Some? && ArmsAt(cfg, es, i, FrameOf(es[i]).value)
  }

  /** Frame `c` of event `i` is still what the vehicle is armed with at `k`. */
  predicate ArmedSince(cfg: Cfg, es: Run, i: nat, c: Commit, k: nat)
    requires k <= |es|
  {
    && i < k && ArmsAt(cfg, es, i, c) && NoHop(cfg, es, i, k)
    && Before(cfg, es, k) == ArmedBy(c, es[i].at, Before(cfg, es, i).lastSwitch)
  }

  /** What ends VERIFY: a datagram that is not CSA at all, or a valid frame of
      the same session. */
  predicate Heartbeat(cfg: Cfg, sess: int, e: Event) {
    || e == Recv(e.at, Foreign)
    || (FrameOf(e).Some? && TargetOk(cfg, FrameOf(e).value) && FrameOf(e).value.sess == sess)
  }

  predicate Reverting(s: State, c: Commit, hopped: int) {
    && s.st == Verify && s.sess == c.sess && s.tRevert == hopped + c.tRevert
    && s.prevChan == Int32(c.prevChan) && s.prevHt == c.prevHt
  }

  /** The vehicle is in VERIFY at `k` after hopping at `j` as frame `c` of event `i` said. */
  predicate VerifyingSince(cfg: Cfg, es: Run, i: nat, c: Commit, j: nat, k: nat)
    requires k <= |es|
  {
    && j < k && !cfg.noRevert && ArmedSince(cfg, es, i, c, j) && HopAt(cfg, es, j) == Some(Hop(c.targetChan, c.targetHt))
    && NoHop(cfg, es, j + 1, k)
    && (forall m :: j < m < k ==> !Heartbeat(cfg, c.sess, es[m]))
    && Reverting(Before(cfg, es, k), c, es[j].at)
  }

  /** Where each phase comes from. */
  ghost predicate Explained(cfg: Cfg, es: Run, k: nat)
    requires k <= |es|
  {
    match Before(cfg, es, k).st
    case Idle => true
    case Armed => exists i: nat, c :: ArmedSince(cfg, es, i, c, k)
    case Verify => exists i: nat, c, j: nat :: VerifyingSince(cfg, es, i, c, j, k)
  }

  lemma {:induction false} PhaseIsExplained(cfg: Cfg, es: Run, k: nat)
    requires k <= |es|
    ensures Explained(cfg, es, k)
    decreases k
  {
    if k > 0 {
      PhaseIsExplained(cfg, es, k - 1);
      match Before(cfg, es, k - 1).st
      case Idle => ArmedNext(cfg, es, k - 1);
      case Armed =>
        var i: nat, c :| ArmedSince(cfg, es, i, c, k - 1);
        FromArmed(cfg, es, i, c, k - 1);
      case Verify =>
        var i: nat, c, j: nat :| VerifyingSince(cfg, es, i, c, j, k - 1);
        FromVerify(cfg, es, i, c, j, k - 1);
    }
  }

  /** A session that starts at event `k`. */
  lemma {:induction false} ArmedNext(cfg: Cfg, es: Run, k: nat)
    requires k < |es|
    requires Before(cfg, es, k).st == Idle || Arms(cfg, es, k)
    ensures Explained(cfg, es, k + 1)
  {
    if Arms(cfg, es, k) {
      assert ArmedSince(cfg, es, k, FrameOf(es[k]).value, k + 1);
    }
  }

  lemma {:induction false} FromArmed(cfg: Cfg, es: Run, i: nat, c: Commit, k: nat)
    requires k < |es| && ArmedSince(cfg, es, i, c, k)
    ensures Explained(cfg, es, k + 1)
  {
    if Arms(cfg, es, k) {
      ArmedNext(cfg, es, k);
    } else if HopAt(cfg, es, k) == None {
      assert ArmedSince(cfg, es, i, c, k + 1);
    } else if !cfg.noRevert {
      assert VerifyingSince(cfg, es, i, c, k, k + 1);
    }
  }

  lemma {:induction false} FromVerify(cfg: Cfg, es: Run, i: nat, c: Commit, j: nat, k: nat)
    requires k < |es| && VerifyingSince(cfg, es, i, c, j, k)
    ensures Explained(cfg, es, k + 1)
  {
    if Arms(cfg, es, k) {
      ArmedNext(cfg, es, k);
    } else if HopAt(cfg, es, k) == None && !Heartbeat(cfg, c.sess, es[k]) {
      assert VerifyingSince(cfg, es, i, c, j, k + 1);
    }
  }

  // ---- Cooldown

  /** `lastSwitch` is the time of the latest hop, and an armed session was
      accepted outside the cooldown of it. */
  predicate CooldownKept(cfg: Cfg, es: Run, k: nat, now: int)
    requires k <= |es|
  {
    var s := Before(cfg, es, k);
    && -1 <= s.lastSwitch <= now
    && (forall j :: 0 <= j < k && HopAt(cfg, es, j).Some? ==> es[j].at <= s.lastSwitch)
    && (s.st == Armed ==> !Cooling(s, cfg, now))
  }

  lemma {:induction false} CooldownHolds(cfg: Cfg, es: Run, k: nat)
    requires Clocked(es) && k < |es|
    ensures CooldownKept(cfg, es, k, es[k].at)
    decreases k
  {
    if k > 0 {
      CooldownHolds(cfg, es, k - 1);
      assert es[k - 1].at <= es[k].at;
    }
  }

  /** The time of the latest hop is that of some hop. */
  lemma {:induction false} LastSwitchIsHop(cfg: Cfg, es: Run, k: nat)
    requires k <= |es|
    ensures var at := Before(cfg, es, k).lastSwitch;
            at == -1 || exists j :: 0 <= j < k && HopAt(cfg, es, j).Some? && es[j].at == at
    decreases k
  {
    if k > 0 {
      LastSwitchIsHop(cfg, es, k - 1);
      if HopAt(cfg, es, k - 1).Some? {
        assert Before(cfg, es, k).lastSwitch == es[k - 1].at;
      } else if Before(cfg, es, k).lastSwitch != -1 {
        var j :| 0 <= j < k - 1 && HopAt(cfg, es, j).Some? && es[j].at == Before(cfg, es, k - 1).lastSwitch;
        assert HopAt(cfg, es, j).Some?;
      }
    }
  }

  /** Exactly when a frame starts a session, in terms of the run: its target is in
      range and allowed, the vehicle is idle or the session newer, and the cooldown
      since every hop is over. */
  lemma {:induction false} ArmsIff(cfg: Cfg, es: Run, k: nat, c: Commit)
    requires Clocked(es) && k < |es| && FrameOf(es[k]) == Some(c)
    ensures var s := Before(cfg, es, k);
            ArmsAt(cfg, es, k, c) <==>
              && 1 <= c.targetChan <= 200
              && (cfg.allowChan == [] || c.targetChan in cfg.allowChan)
              && (cfg.allowBw == [] || c.targetHt in cfg.allowBw)
              && (s.st == Idle || c.sess > s.sess)
              && forall j :: 0 <= j < k && HopAt(cfg, es, j).Some? ==> es[k].at - es[j].at >= cfg.cooldown
    ensures ArmsAt(cfg, es, k, c) ==>
              var t := Before(cfg, es, k + 1);
              && t.st == Armed && t.sess == c.sess && t.tSwitch == es[k].at + c.dt && t.tRevert == c.tRevert
              && t.targetChan == c.targetChan && t.targetHt == c.targetHt
              && t.prevChan == Int32(c.prevChan) && t.prevHt == c.prevHt
    ensures !ArmsAt(cfg, es, k, c) && Before(cfg, es, k).st != Verify ==> Before(cfg, es, k + 1) == Before(cfg, es, k)
  {
    CooldownHolds(cfg, es, k);
    LastSwitchIsHop(cfg, es, k);
    forall j | 0 <= j < k && HopAt(cfg, es, j).Some? ensures 0 <= es[j].at <= es[k].at {
    }
  }

  // ---- Safety of hops

  predicate ForwardAt(cfg: Cfg, es: Run, k: nat)
    requires k < |es|
  {
    HopAt(cfg, es, k).Some? && Before(cfg, es, k).st == Armed
  }

  predicate RevertAt(cfg: Cfg, es: Run, k: nat)
    requires k < |es|
  {
    HopAt(cfg, es, k).Some? && Before(cfg, es, k).st == Verify
  }

  /** Every hop is one or the other. For arbitrary datagrams, a forward hop goes
      where an accepted frame said, inside every allowlist, not before that
      frame's time, and at least the cooldown after every earlier hop. */
  lemma {:induction false} ForwardHopIsSafe(cfg: Cfg, es: Run, k: nat)
    requires Clocked(es) && k < |es| && HopAt(cfg, es, k).Some?
    ensures ForwardAt(cfg, es, k) != RevertAt(cfg, es, k)
    ensures ForwardAt(cfg, es, k) ==>
              exists i: nat, c :: ArmedSince(cfg, es, i, c, k) && HopAt(cfg, es, k) == Some(Hop(c.targetChan, c.targetHt))
                             && 1 <= c.targetChan <= 200 && es[i].at + c.dt <= es[k].at
                             && (cfg.allowChan == [] || c.targetChan in cfg.allowChan)
                             && (cfg.allowBw == [] || c.targetHt in cfg.allowBw)
    ensures ForwardAt(cfg, es, k) ==>
              forall j :: 0 <= j < k && HopAt(cfg, es, j).Some? ==> es[k].at - es[j].at >= cfg.cooldown
  {
    PhaseIsExplained(cfg, es, k);
    CooldownHolds(cfg, es, k);
    if ForwardAt(cfg, es, k) {
      forall j | 0 <= j < k && HopAt(cfg, es, j).Some? ensures es[k].at - es[j].at >= cfg.cooldown {
        assert es[j].at >= 0 && es[j].at <= es[k].at;
      }
    }
  }

  /** A revert goes back to the previous channel of the session whose forward
      hop it undoes, no sooner than that session's revert time after it, and
      with no heartbeat and no other hop in between. */
  lemma {:induction false} RevertIsSafe(cfg: Cfg, es: Run, k: nat)
    requires k < |es| && RevertAt(cfg, es, k)
    ensures exists i: nat, c, j: nat :: VerifyingSince(cfg, es, i, c, j, k)
                              && HopAt(cfg, es, k) == Some(Hop(Int32(c.prevChan), c.prevHt))
                              && es[k].at >= es[j].at + c.tRevert
    ensures !cfg.noRevert
  {
    PhaseIsExplained(cfg, es, k);
  }

  // ---- What ends VERIFY

  /** For every datagram in every run: it ends VERIFY exactly when it is a
      heartbeat, that is not CSA at all or an allowed frame of the same session. */
  lemma {:induction false} VerifyEndsIff(cfg: Cfg, es: Run, k: nat)
    requires k < |es| && es[k].Recv? && Before(cfg, es, k).st == Verify
    ensures Before(cfg, es, k + 1).st == Idle <==> Heartbeat(cfg, Before(cfg, es, k).sess, es[k])
    ensures Before(cfg, es, k + 1).st == Armed <==> Arms(cfg, es, k)
  {
  }

  /** Event `k` is neither a heartbeat of session `sess` nor the start of a new
      session. */
  predicate Unconfirmed(cfg: Cfg, es: Run, sess: int, k: nat)
    requires k < |es|
  {
    !Heartbeat(cfg, sess, es[k]) && !Arms(cfg, es, k)
  }

  predicate Unanswered(cfg: Cfg, es: Run, sess: int, j: nat, k: nat)
    requires k <= |es|
  {
    forall m :: j < m < k ==> Unconfirmed(cfg, es, sess, m)
  }

  /** From the hop at `j` on, no tick before `k` is past the revert deadline. */
  predicate NotDue(cfg: Cfg, es: Run, j: nat, k: nat)
    requires j < k <= |es|
  {
    forall m :: j < m < k && es[m].Tick? ==> es[m].at < Before(cfg, es, j + 1).tRevert
  }

  lemma {:induction false} VerifyStays(cfg: Cfg, es: Run, j: nat, k: nat)
    requires j < k <= |es| && Before(cfg, es, j + 1).st == Verify && NotDue(cfg, es, j, k)
    requires Unanswered(cfg, es, Before(cfg, es, j + 1).sess, j, k)
    ensures Before(cfg, es, k) == Before(cfg, es, j + 1) && NoHop(cfg, es, j + 1, k)
    decreases k
  {
    if k > j + 1 {
      VerifyStays(cfg, es, j, k - 1);
      assert Unconfirmed(cfg, es, Before(cfg, es, j + 1).sess, k - 1);
    }
  }

  /** Out of VERIFY only a hop leads back into it. */
  lemma {:induction false} VerifyNeedsHop(cfg: Cfg, es: Run, m: nat, k: nat)
    requires m <= k <= |es| && Before(cfg, es, m).st != Verify && NoHop(cfg, es, m, k)
    ensures Before(cfg, es, k).st != Verify
    decreases k
  {
    if k > m {
      VerifyNeedsHop(cfg, es, m, k - 1);
      assert HopAt(cfg, es, k - 1) == None;
    }
  }

  /** The first tick past the deadline of a hop reverts it if and only if no
      heartbeat and no newer session came since; any other csa datagram leaves
      VERIFY standing. */
  lemma {:induction false} RevertIff(cfg: Cfg, es: Run, j: nat, k: nat)
    requires j < k < |es| && ForwardAt(cfg, es, j) && !cfg.noRevert && NotDue(cfg, es, j, k)
    requires es[k].Tick? && es[k].at >= Before(cfg, es, j + 1).tRevert
    ensures RevertAt(cfg, es, k) && NoHop(cfg, es, j + 1, k)
            <==> Unanswered(cfg, es, Before(cfg, es, j).sess, j, k)
  {
    var sess := Before(cfg, es, j).sess;
    assert Before(cfg, es, j + 1).st == Verify && Before(cfg, es, j + 1).sess == sess;
    if Unanswered(cfg, es, sess, j, k) {
      VerifyStays(cfg, es, j, k);
    } else {
      var m := FirstConfirmed(cfg, es, sess, j, k);
      VerifyStays(cfg, es, j, m);
      assert Before(cfg, es, m).st == Verify && es[m].Recv?;
      VerifyEndsIff(cfg, es, m);
      if NoHop(cfg, es, j + 1, k) {
        assert NoHop(cfg, es, m + 1, k);
        VerifyNeedsHop(cfg, es, m + 1, k);
      }
    }
  }

  lemma {:induction false} FirstConfirmed(cfg: Cfg, es: Run, sess: int, j: nat, k: nat) returns (m: nat)
    requires j < k <= |es| && !Unanswered(cfg, es, sess, j, k)
    ensures j < m < k && !Unconfirmed(cfg, es, sess, m) && Unanswered(cfg, es, sess, j, m)
    decreases k
  {
    if k - 1 <= j || Unanswered(cfg, es, sess, j, k - 1) {
      m := k - 1;
    } else {
      m := FirstConfirmed(cfg, es, sess, j, k - 1);
    }
  }

  /** A run in which two csa datagrams arrive in VERIFY, one of another type and
      one of another session, and the vehicle still reverts. */
  function DeafRun(c: Commit): Run {
    [Recv(0, CommitFrame(Some(c))), Tick(c.dt), Recv(c.dt, OtherCsa), Recv(c.dt, CommitFrame(Some(c.(sess := c.sess - 1)))),
     Tick(c.dt + c.tRevert)]
  }

  lemma {:induction false} CsaDatagramsLeaveVerify(cfg: Cfg, c: Commit)
    requires TargetOk(cfg, c) && c.dt >= 0 && c.tRevert > 0 && !cfg.noRevert
    ensures var es := DeafRun(c);
            Clocked(es) && ForwardAt(cfg, es, 1) && Before(cfg, es, 2).st == Verify && RevertAt(cfg, es, 4)
  {
    var es := DeafRun(c);
    assert Before(cfg, es, 1) == ArmedBy(c, 0, -1);
    var v := Before(cfg, es, 2);
    assert v.st == Verify && v.sess == c.sess && v.tRevert == c.dt + c.tRevert;
    assert Before(cfg, es, 3) == v;
    assert Before(cfg, es, 4) == v;
  }

  // ---- The deadline

  /** Between two ticks with nothing in between: the second hops exactly when the
      time the first returned is not 0 and reached. The one exception is a session
      whose revert time is minus the clock at its hop: the deadline is then 0. */
  lemma {:induction false} DeadlineIff(cfg: Cfg, es: Run, j: nat)
    requires Clocked(es) && j + 1 < |es| && es[j].Tick? && es[j + 1].Tick?
    ensures var next := Deadline(Before(cfg, es, j + 1));
            (HopAt(cfg, es, j + 1).Some? <==> next != 0 && es[j + 1].at >= next)
            <==> !(ForwardAt(cfg, es, j) && !cfg.noRevert && Before(cfg, es, j).tRevert == -es[j].at)
  {
    assert 0 <= es[j].at <= es[j + 1].at;
  }

  /** A run with a tick that returns 0 in VERIFY, and a revert at the next one. */
  function SilentRun(c: Commit): Run {
    [Recv(0, CommitFrame(Some(c))), Tick(c.dt), Tick(c.dt)]
  }

  lemma {:induction false} ZeroDeadlineReverts(cfg: Cfg, c: Commit)
    requires TargetOk(cfg, c) && !cfg.noRevert && c.dt >= 0 && c.tRevert == -c.dt
    ensures var es := SilentRun(c);
            Clocked(es) && ForwardAt(cfg, es, 1) && Deadline(Before(cfg, es, 2)) == 0 && RevertAt(cfg, es, 2)
  {
    var es := SilentRun(c);
    assert Before(cfg, es, 1) == ArmedBy(c, 0, -1);
    assert Before(cfg, es, 2).st == Verify && Before(cfg, es, 2).tRevert == 0;
  }

  // ---- Refresh

  /** For every datagram in every run: it changes an armed vehicle exactly when it
      is an allowed frame of a newer session out of cooldown; so a refresh of the
      same session, however close, never does. */
  lemma {:induction false} RefreshIff(cfg: Cfg, es: Run, k: nat)
    requires k < |es| && es[k].Recv? && Before(cfg, es, k).st == Armed
    ensures var s, f := Before(cfg, es, k), FrameOf(es[k]);
            Before(cfg, es, k + 1) != s
            <==> f.Some? && f.value.sess > s.sess && TargetOk(cfg, f.value) && !Cooling(s, cfg, es[k].at)
  {
  }

  /** A same-session frame whose switch time differs by `drift`. */
  function RefreshRun(c: Commit, drift: int): Run {
    [Recv(0, CommitFrame(Some(c))), Recv(0, CommitFrame(Some(c.(dt := c.dt + drift))))]
  }

  lemma {:induction false} RefreshMovesNothing(cfg: Cfg, c: Commit, drift: int)
    requires TargetOk(cfg, c) && drift != 0
    ensures var es := RefreshRun(c, drift);
            && Clocked(es) && ArmsAt(cfg, es, 0, c)
            && es[1].at + FrameOf(es[1]).value.dt == Before(cfg, es, 1).tSwitch + drift
            && Before(cfg, es, 2).tSwitch == Before(cfg, es, 1).tSwitch
  {
    var es := RefreshRun(c, drift);
    assert Before(cfg, es, 1) == ArmedBy(c, 0, -1);
  }

  // ---- Replay

  predicate NoArm(cfg: Cfg, es: Run, i: nat, k: nat)
    requires k <= |es|
  {
    forall m :: i < m < k ==> !Arms(cfg, es, m)
  }

  lemma {:induction false} SessIsLastArmed(cfg: Cfg, es: Run, i: nat, c: Commit, k: nat)
    requires i < k <= |es| && ArmsAt(cfg, es, i, c) && NoArm(cfg, es, i, k)
    ensures Before(cfg, es, k).sess == c.sess
    decreases k
  {
    if k > i + 1 {
      SessIsLastArmed(cfg, es, i, c, k - 1);
      assert !Arms(cfg, es, k - 1);
    }
  }

  /** Exactly when a frame of a session that is not newer than the last one
      starts a session again: whenever the vehicle is idle and the cooldown is
      over. Only an armed or verifying vehicle turns stale sessions away. */
  lemma {:induction false} ReplayIff(cfg: Cfg, es: Run, i: nat, c: Commit, k: nat, d: Commit)
    requires i < k < |es| && ArmsAt(cfg, es, i, c) && NoArm(cfg, es, i, k)
    requires FrameOf(es[k]) == Some(d)
    requires TargetOk(cfg, d) && d.sess <= c.sess
    ensures ArmsAt(cfg, es, k, d) <==>
              Before(cfg, es, k).st == Idle && !Cooling(Before(cfg, es, k), cfg, es[k].at)
  {
    SessIsLastArmed(cfg, es, i, c, k);
  }

  /** A run in which one captured frame hops the vehicle, and again once the
      hop is confirmed and the cooldown is over. */
  function ReplayRun(cfg: Cfg, c: Commit): Run {
    var frame, rest := CommitFrame(Some(c)), Max(cfg.cooldown, 0);
    [Recv(0, frame), Tick(c.dt), Recv(c.dt, Foreign), Recv(c.dt + rest, frame), Tick(c.dt + rest + c.dt)]
  }

  function Max(a: int, b: int): int {
    if a > b then a else b
  }

  lemma {:induction false} ReplayHopsAgain(cfg: Cfg, c: Commit)
    requires TargetOk(cfg, c) && c.dt >= 0
    ensures var es := ReplayRun(cfg, c);
            Clocked(es) && ArmsAt(cfg, es, 0, c) && ForwardAt(cfg, es, 1) && ArmsAt(cfg, es, 3, c) && ForwardAt(cfg, es, 4)
  {
    var es := ReplayRun(cfg, c);
    assert Before(cfg, es, 1) == ArmedBy(c, 0, -1);
    assert Before(cfg, es, 2).lastSwitch == c.dt;
    assert Before(cfg, es, 3).st == Idle && Before(cfg, es, 3).lastSwitch == c.dt;
    assert Before(cfg, es, 4) == ArmedBy(c, es[3].at, c.dt);
  }

  // ---- The receiver

  class Vehicle {
    var st: Phase
    var sess: int
    var tSwitch: int
    var tRevert: int
    var targetChan: int
    var prevChan: int
    var targetHt: string
    var prevHt: string
    var lastSwitch: int

    function Now(): State
      reads this
    {
      State(st, sess, tSwitch, tRevert, targetChan, prevChan, targetHt, prevHt, lastSwitch)
    }

    constructor Init()
      ensures Now() == INITIAL
    {
      st, sess, tSwitch, tRevert := Idle, 0, 0, 0;
      targetChan, prevChan, targetHt, prevHt := 0, 0, "", "";
      lastSwitch := -1;
    }

    method OnCommit(cfg: Cfg, c: Commit, now: int)
      modifies this
      ensures Now() == AfterCommit(old(Now()), cfg, c, now)
    {
      var at := now + c.dt;
      if c.targetChan < 1 || c.targetChan > 200 {
        return;
      }
      var chan := ChanOk(cfg, c.targetChan);
      if !chan {
        return;
      }
      var bw := BwOk(cfg, c.targetHt);
      if !bw {
        return;
      }
      if st == Verify && c.sess == sess {
        st := Idle;
        return;
      }
      if st == Idle || c.sess > sess {
        if cfg.cooldown > 0 && lastSwitch >= 0 {
          var since := now - lastSwitch;
          if since < cfg.cooldown {
            return;
          }
        }
        st, sess, tSwitch, tRevert := Armed, c.sess, at, c.tRevert;
        targetChan, prevChan := c.targetChan, Int32(c.prevChan);
        targetHt, prevHt := c.targetHt, c.prevHt;
      }
      // Another frame of an armed session is only logged.
    }

    method Feed(cfg: Cfg, buf: string, now: int) returns (consumed: bool)
      modifies this
      ensures consumed <==> !Classify(buf).Foreign?
      ensures Now() == if consumed then AfterRecv(old(Now()), cfg, Classify(buf), now) else old(Now())
    {
      var kind := GetStr(buf, "type", 32);
      if kind.None? || !("csa_" <= kind.value) {
        return false;
      }
      if "csa_commit" <= kind.value {
        var c := ReadCommit(buf);
        if c.Some? {
          OnCommit(cfg, c.value, now);
        }
      }
      return true;
    }

    method LinkAlive() returns (confirmed: bool)
      modifies this`st
      ensures Now() == AfterAlive(old(Now())) && confirmed == (old(st) == Verify)
    {
      confirmed := st == Verify;
      if confirmed {
        st := Idle;
      }
    }

    /** The receive branch of the agent's loop. */
    method Recv(cfg: Cfg, datagram: string, now: int)
      modifies this
      ensures Now() == AfterRecv(old(Now()), cfg, Classify(CString(datagram)), now)
    {
      var consumed := Feed(cfg, CString(datagram), now);
      if !consumed {
        var confirmed := LinkAlive();
      }
    }

    method Tick(cfg: Cfg, now: int) returns (next: int, iw: Option<Hop>)
      modifies this
      ensures (Now(), iw) == AfterTick(old(Now()), cfg, now)
      ensures next == Deadline(Now())
    {
      iw := None;
      if st == Armed {
        if now >= tSwitch {
          iw := Some(Hop(targetChan, targetHt));
          lastSwitch := now;
          if cfg.noRevert {
            st := Idle;
            return 0, iw;
          }
          st := Verify;
          tRevert := now + tRevert;
          return tRevert, iw;
        }
        return tSwitch, iw;
      }
      if st == Verify {
        if now >= tRevert {
          iw := Some(Hop(prevChan, prevHt));
          lastSwitch := now;
          st := Idle;
          return 0, iw;
        }
        return tRevert, iw;
      }
      return 0, iw;
    }
  }

  method ChanOk(cfg: Cfg, chan: int) returns (ok: bool)
    ensures ok == (cfg.allowChan == [] || chan in cfg.allowChan)
  {
    if |cfg.allowChan| == 0 {
      return true;
    }
    for i := 0 to |cfg.allowChan|
      invariant chan !in cfg.allowChan[..i]
    {
      if cfg.allowChan[i] == chan {
        return true;
      }
    }
    return false;
  }

  method BwOk(cfg: Cfg, bw: string) returns (ok: bool)
    ensures ok == (cfg.allowBw == [] || bw in cfg.allowBw)
  {
    if |cfg.allowBw| == 0 {
      return true;
    }
    for i := 0 to |cfg.allowBw|
      invariant bw !in cfg.allowBw[..i]
    {
      if cfg.allowBw[i] == bw {
        return true;
      }
    }
    return false;
  }
}
