/** Ground and vehicle together over a lossy, delaying link. The ground has just
    armed a session; every interleaving of its ticks, the vehicle's ticks,
    deliveries and ordinary traffic is a run. */
module CsaWorld {
  import opened Runs
  import opened CsaText
  import opened CsaFrame
  import opened CsaVehicle
  import opened CsaGround
  import opened CsaTiming

  /** `home` is the channel both radios start on, `off` the vehicle clock's
      offset, `rx0` the counter of the ground's first rx tunnel, if it has one. */
  datatype Setup = Setup(cfg: Cfg, off: int, g: Orch, t0: int, home: Hop, v: State, rx0: Option<int>)

  datatype Sent = Sent(frame: Frame, at: int)

  /** `heardG` and `heardV` say what each side has heard with both radios on the
      target. */
  datatype World = World(g: Orch, gTuned: Hop, v: State, vTuned: Hop, rx: Option<int>, sent: seq<Sent>,
                         heardG: nat, heardV: bool)

  /** `Deliver` brings the i-th sent frame. */
  datatype Action =
    | GroundTick(t: int, clock: int, uplink: bool, sendOk: bool)
    | VehicleTick(t: int)
    | Deliver(t: int, i: nat)
    | VehicleHears(t: int)
    | GroundHears(t: int)

  function Retuned(h: Hop, iw: seq<Hop>): Hop {
    if iw == [] then h else iw[|iw| - 1]
  }

  function InputOf(w: World, a: Action): Turn
    requires a.GroundTick?
  {
    Turn(a.t, a.clock, a.uplink, a.sendOk, w.rx)
  }

  function GroundActs(w: World, a: Action): World
    requires a.GroundTick?
  {
    var (g, f, iw) := AfterGround(w.g, InputOf(w, a));
    w.(g := g, gTuned := Retuned(w.gTuned, iw), sent := if f.Some? then w.sent + [Sent(f.value, a.clock)] else w.sent)
  }

  function VehicleActs(su: Setup, w: World, t: int): World {
    var (v, hop) := AfterTick(w.v, su.cfg, LocalMs(t, su.off));
    w.(v := v, vTuned := if hop.Some? then hop.value else w.vTuned)
  }

  function Step(su: Setup, w: World, a: Action): World {
    match a
    case GroundTick(_, _, _, _) => GroundActs(w, a)
    case VehicleTick(t) => VehicleActs(su, w, t)
    case Deliver(t, i) =>
      if i < |w.sent| then w.(v := AfterRecv(w.v, su.cfg, ReadBack(w.sent[i].frame), LocalMs(t, su.off))) else w
    case VehicleHears(t) =>
      w.(v := AfterRecv(w.v, su.cfg, Foreign, LocalMs(t, su.off)), heardV := w.heardV || w.gTuned == su.g.target)
    case GroundHears(_) =>
      w.(rx := if w.rx.Some? then Some((w.rx.value + 1) % U32) else None,
         heardG := if w.gTuned == su.g.target then w.heardG + 1 else w.heardG)
  }

  /** The link: radios hear each other only when tuned alike, and no frame is
      delivered at or after the switch. */
  predicate Possible(su: Setup, w: World, a: Action) {
    match a
    case GroundTick(t, clock, _, _) => t <= clock
    case VehicleTick(_) => true
    case Deliver(t, i) => w.gTuned == w.vTuned && i < |w.sent| && w.sent[i].at <= t < su.g.tSwitch
    case VehicleHears(_) => w.gTuned == w.vTuned
    case GroundHears(_) => w.gTuned == w.vTuned
  }

  function Start(su: Setup): World {
    World(su.g, su.home, su.v, su.home, su.rx0, [], 0, false)
  }

  /** The world after a run. */
  function After(su: Setup, run: seq<Action>): World {
    if run == [] then Start(su) else Step(su, After(su, Front(run)), Last(run))
  }

  function Clock(su: Setup, run: seq<Action>): int {
    if run == [] then su.t0 else Last(run).t
  }

  /** The ground has just armed a session, the vehicle is idle; its other
      fields are arbitrary. */
  predicate Ready(su: Setup) {
    JustArmed(su.g, su.t0) && su.v.st == Idle && (su.rx0.Some? ==> 0 <= su.rx0.value < U32)
    && KnownHt(su.home.ht)
  }

  predicate JustArmed(g: Orch, t0: int) {
    && g.phase == Burst && g.sent == 0 && g.total == 5 && g.nextFrame == t0
    && 0 <= g.sess < U32 && g.seqNo == 0
    && 1 <= g.target.chan <= 200 && KnownHt(g.target.ht)
    && -0x8000_0000 <= g.prev.chan < 0x8000_0000 && |g.prev.ht| < HT_LEN && '\0' !in g.prev.ht
    && 100000 <= g.tSwitch - t0 <= 5000000
    && 500000 <= g.tRevert - g.tSwitch <= 30000000 && (g.tRevert - g.tSwitch) % 1000 == 0
  }

  /** Every accepted request leaves the orchestrator in such a state, and the
      previous channel is what the caller gave, or else the target. */
  lemma {:induction false} ArmingIsReady(g: Orch, q: Request, uplink: bool, t: int)
    requires 0 <= g.sess < U32 && AnswerTo(g, false, uplink, q) == Accepted
    ensures JustArmed(ArmedFor(g, q, t), t)
    ensures ArmedFor(g, q, t).prev.chan == if q.prevChan.Some? then Int32(q.prevChan.value) else q.chan.value
  {
  }

  /** A tick that reaches a revert deadline in VERIFY. */
  predicate Decides(su: Setup, w: World, a: Action) {
    match a
    case GroundTick(t, _, _, _) =>
      var g := AfterSwitch(AfterSend(w.g, InputOf(w, a)).0, InputOf(w, a)).0;
      g.phase == GVerify && t >= g.tRevert
    case VehicleTick(t) => w.v.st == Verify && LocalMs(t, su.off) >= w.v.tRevert
    case _ => false
  }

  /** A run the link can produce: in time order, and short enough that a 32-bit
      counter that moves does not come round to the same value. */
  predicate Linked(su: Setup, run: seq<Action>) {
    && |run| < U32
    && (run != [] ==>
          Linked(su, Front(run)) && Possible(su, After(su, Front(run)), Last(run)) && Clock(su, Front(run)) <= Last(run).t)
  }

  /** Both sides hear each other on the target before either decides. */
  predicate Works(su: Setup, run: seq<Action>) {
    run != [] ==>
      && Works(su, Front(run))
      && var w := After(su, Front(run));
         (Decides(su, w, Last(run)) ==> w.heardG > 0 && w.heardV)
  }

  /** Nothing is ever heard on the target. */
  predicate Dead(su: Setup, run: seq<Action>) {
    After(su, run).heardG == 0 && !After(su, run).heardV
  }

  /** The target works both ways before both deadlines, or not at all. */
  predicate Fair(su: Setup, run: seq<Action>) {
    Linked(su, run) && (Works(su, run) || Dead(su, run))
  }

  predicate Agreed(w: World) {
    w.g.phase == GIdle && w.v.st == Idle ==> w.gTuned == w.vTuned
  }

  // ---- The ground's session

  /** What a tick does not touch. */
  predicate SameSession(su: Setup, g: Orch) {
    && g.sess == su.g.sess && g.tSwitch == su.g.tSwitch && g.tRevert == su.g.tRevert && g.total == 5
    && g.target == su.g.target && g.prev == su.g.prev && g.noRevert == su.g.noRevert
    && 0 <= g.seqNo < U32
  }

  predicate IsSessionFrame(su: Setup, s: Sent) {
    && Armable(s.frame) && s.frame.sess == su.g.sess
    && Hop(s.frame.targetChan, s.frame.targetHt) == su.g.target && Hop(s.frame.prevChan, s.frame.prevHt) == su.g.prev
    && s.frame.dt == Dt(su.g.tSwitch, s.at) && s.frame.tRevert == (su.g.tRevert - su.g.tSwitch) / 1000
  }

  lemma {:induction false} FrameIsSession(su: Setup, g: Orch, clock: int)
    requires Ready(su) && SameSession(su, g) && su.t0 <= clock
    ensures IsSessionFrame(su, Sent(FrameNow(g, clock), clock))
  {
  }

  /** The session's frames, as the vehicle reads them. */
  predicate IsSessionCommit(su: Setup, c: Commit, at: int) {
    && c.sess == su.g.sess && Hop(c.targetChan, c.targetHt) == su.g.target && Hop(c.prevChan, c.prevHt) == su.g.prev
    && -0x8000_0000 <= c.prevChan < 0x8000_0000
    && c.dt == Dt(su.g.tSwitch, at) && c.tRevert == (su.g.tRevert - su.g.tSwitch) / 1000
  }

  lemma {:induction false} DeliveredCommit(su: Setup, s: Sent)
    requires IsSessionFrame(su, s) && NoQuote(su.g.prev.ht)
    ensures ReadBack(s.frame) == CommitFrame(Some(CommitOf(s.frame))) && IsSessionCommit(su, CommitOf(s.frame), s.at)
  {
    UnquotedIff(s.frame.prevHt);
  }

  lemma {:induction false} SentStep(su: Setup, w: World, a: Action)
    requires Ready(su) && SameSession(su, w.g) && (forall s :: s in w.sent ==> IsSessionFrame(su, s))
    requires a.GroundTick? ==> su.t0 <= a.clock
    ensures var x := Step(su, w, a); SameSession(su, x.g) && forall s :: s in x.sent ==> IsSessionFrame(su, s)
  {
    if a.GroundTick? {
      FrameIsSession(su, w.g, a.clock);
    }
  }

  lemma {:induction false} SentFrames(su: Setup, run: seq<Action>)
    requires Ready(su) && Linked(su, run)
    ensures SameSession(su, After(su, run).g) && su.t0 <= Clock(su, run)
    ensures forall s :: s in After(su, run).sent ==> IsSessionFrame(su, s)
  {
    if run != [] {
      SentFrames(su, Front(run));
      SentStep(su, After(su, Front(run)), Last(run));
    }
  }

  /** Every frame of every run is one the ground can arm, so its bytes read as
      `Step` says. */
  lemma {:induction false} SentFramesRead(su: Setup, run: seq<Action>, s: Sent)
    requires Ready(su) && Linked(su, run) && s in After(su, run).sent
    ensures IsSessionFrame(su, s) && Classify(CString(FrameText(s.frame))) == ReadBack(s.frame)
  {
    SentFrames(su, run);
    FrameRoundTrip(s.frame);
  }
}
