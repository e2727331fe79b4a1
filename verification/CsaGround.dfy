/** The ground's channel-switch orchestrator: arming in
    ground/gs_supervisor_http.c, the tick in ground/gs_supervisor_csa.c. Times are
    microseconds. */
module CsaGround {
  import opened Runs
  import opened CsaText
  import opened CsaFrame
  import opened CsaVehicle

  datatype GPhase = GIdle | Burst | GArmed | GVerify

  /** `baseline` is the rx counter at the hop; None when there is no rx tunnel. */
  datatype Orch = Orch(phase: GPhase, sess: int, tSwitch: int, tRevert: int, nextFrame: int, sent: nat, total: nat,
                       target: Hop, prev: Hop, noRevert: bool, baseline: Option<int>, seqNo: int)

  // ---- Arming

  /** The interface list of a request: missing, malformed or too long; one of no
      tunnel; or good. */
  datatype Ifaces = BadList | Unknown | Known

  /** The query of a switch request; values that are missing, not integers or of
      a length that does not fit are None. */
  datatype Request = Request(chan: Option<int>, ifaces: Ifaces, ht: Option<string>, lead: Option<int>, tRevert: Option<int>,
                             prevChan: Option<int>, prevHt: Option<HtText>, noRevert: Option<int>)

  /** What fits the 8-byte buffers. */
  type HtText = s: string | |s| < HT_LEN && '\0' !in s

  datatype Answer = Accepted | Conflict | BadRequest | NotFound | NoUplink

  function Within(n: int, lo: int, hi: int): (r: int)
    requires lo <= hi
    ensures lo <= r <= hi && (lo <= n <= hi ==> r == n)
  {
    if n < lo then lo else if n > hi then hi else n
  }

  predicate KnownHt(ht: string) {
    ht == "HT20" || ht == "HT40+" || ht == "HT40-"
  }

  function AnswerTo(g: Orch, scanning: bool, uplink: bool, q: Request): Answer {
    if g.phase != GIdle || scanning then Conflict
    else if q.chan.None? || q.chan.value < 1 || q.chan.value > 200 then BadRequest
    else if q.ht.None? || q.ifaces == BadList then BadRequest
    else if q.ifaces == Unknown then NotFound
    else if !KnownHt(q.ht.value) then BadRequest
    else if !uplink then NoUplink
    else Accepted
  }

  /** The armed session; without prev_chan the "previous" channel is the target. */
  function ArmedFor(g: Orch, q: Request, t: int): Orch
    requires q.chan.Some? && q.ht.Some?
  {
    var tSwitch := t + Within(GetOr(q.lead, 500), 100, 5000) * 1000;
    Orch(Burst, (g.sess + 1) % U32, tSwitch, tSwitch + Within(GetOr(q.tRevert, 3000), 500, 30000) * 1000, t, 0, 5,
         Hop(q.chan.value, q.ht.value), Hop(Int32(GetOr(q.prevChan, q.chan.value)), GetOr(q.prevHt, "HT20")),
         GetOr(q.noRevert, 0) != 0, g.baseline, 0)
  }

  // ---- The tick

  /** What one supervisor tick meets: its time, the clock read when a frame is
      printed, whether the frame goes out, and the first rx tunnel's counter. */
  datatype Turn = Turn(t: int, clock: int, uplink: bool, sendOk: bool, rx: Option<int>)

  function Dt(tSwitch: int, clock: int): int {
    if tSwitch > clock then (tSwitch - clock) / 1000 else 0
  }

  function FrameNow(g: Orch, clock: int): Frame {
    Frame(g.sess, g.seqNo, g.target.chan, g.target.ht, Dt(g.tSwitch, clock), (g.tRevert - g.tSwitch) / 1000,
          g.prev.chan, g.prev.ht)
  }

  predicate SendDue(g: Orch, t: int) {
    g.phase == Burst && t >= g.nextFrame && g.sent < g.total
  }

  function AfterSend(g: Orch, i: Turn): (Orch, Option<Frame>) {
    if !SendDue(g, i.t) then (g, None)
    else if !i.uplink then (g.(phase := GIdle), None)
    else
      var f := FrameNow(g, i.clock);
      var g := g.(seqNo := (g.seqNo + 1) % U32);
      if !i.sendOk then (g.(phase := GIdle), None)
      else
        (g.(sent := g.sent + 1, nextFrame := i.t + 20000, phase := if g.sent + 1 >= g.total then GArmed else Burst),
         Some(f))
  }

  function AfterSwitch(g: Orch, i: Turn): (Orch, seq<Hop>) {
    if g.phase == GArmed && i.t >= g.tSwitch then (g.(phase := GVerify, baseline := i.rx), [g.target]) else (g, [])
  }

  predicate Alive(g: Orch, i: Turn) {
    g.baseline.Some? && i.rx != g.baseline
  }

  function AfterVerify(g: Orch, i: Turn): (Orch, seq<Hop>) {
    if g.phase == GVerify && i.t >= g.tRevert then
      (g.(phase := GIdle), if Alive(g, i) || g.noRevert then [] else [g.prev])
    else (g, [])
  }

  function AfterGround(g: Orch, i: Turn): (Orch, Option<Frame>, seq<Hop>) {
    var (g1, f) := AfterSend(g, i);
    var (g2, h2) := AfterSwitch(g1, i);
    var (g3, h3) := AfterVerify(g2, i);
    (g3, f, h2 + h3)
  }

  // ---- The orchestrator

  class Orchestrator {
    var phase: GPhase
    var sess: int
    var tSwitch: int
    var tRevert: int
    var nextFrame: int
    var sent: nat
    var total: nat
    var target: Hop
    var prev: Hop
    var noRevert: bool
    var baseline: Option<int>
    var seqNo: int

    function Now(): Orch
      reads this
    {
      Orch(phase, sess, tSwitch, tRevert, nextFrame, sent, total, target, prev, noRevert, baseline, seqNo)
    }

    method Check(q: Request, scanning: bool, uplink: bool) returns (answer: Answer)
      ensures answer == AnswerTo(Now(), scanning, uplink, q)
      ensures answer.Accepted? ==> q.chan.Some? && q.ht.Some?
    {
      if phase != GIdle || scanning {
        return Conflict;
      }
      if q.chan.None? || q.chan.value < 1 || q.chan.value > 200 {
        return BadRequest;
      }
      if q.ht.None? || q.ifaces == BadList {
        return BadRequest;
      }
      if q.ifaces == Unknown {
        return NotFound;
      }
      if !KnownHt(q.ht.value) {
        return BadRequest;
      }
      return if uplink then Accepted else NoUplink;
    }

    method Begin(q: Request, t: int)
      requires q.chan.Some? && 1 <= q.chan.value <= 200 && q.ht.Some?
      modifies this
      ensures Now() == ArmedFor(old(Now()), q, t)
    {
      var lead := Within(GetOr(q.lead, 500), 100, 5000);
      var revert := Within(GetOr(q.tRevert, 3000), 500, 30000);
      var prevChan := q.chan.value;
      if q.prevChan.Some? {
        prevChan := Int32(q.prevChan.value);
      }
      sess := (sess + 1) % U32;
      tSwitch := t + lead * 1000;
      tRevert := tSwitch + revert * 1000;
      nextFrame, sent, total := t, 0, 5;
      target := Hop(q.chan.value, q.ht.value);
      prev := Hop(prevChan, GetOr(q.prevHt, "HT20"));
      noRevert := GetOr(q.noRevert, 0) != 0;
      seqNo := 0;
      phase := Burst;
    }

    /** The switch request: refused, or armed. */
    method Arm(q: Request, scanning: bool, uplink: bool, t: int) returns (answer: Answer)
      modifies this
      ensures answer == AnswerTo(old(Now()), scanning, uplink, q)
      ensures answer.Accepted? ==> q.chan.Some? && q.ht.Some?
      ensures Now() == if answer.Accepted? then ArmedFor(old(Now()), q, t) else old(Now())
      ensures old(phase) != GIdle || scanning ==> answer.Conflict? && Now() == old(Now())
    {
      answer := Check(q, scanning, uplink);
      if answer.Accepted? {
        Begin(q, t);
      }
    }

    /** csa_send_commit_frame: None when the frame does not go out. */
    method SendCommitFrame(i: Turn) returns (frame: Option<Frame>)
      modifies this`seqNo
      ensures frame == if i.uplink && i.sendOk then Some(FrameNow(old(Now()), i.clock)) else None
      ensures seqNo == if i.uplink then (old(seqNo) + 1) % U32 else old(seqNo)
    {
      if !i.uplink {
        return None;
      }
      var dt := 0;
      if tSwitch > i.clock {
        dt := (tSwitch - i.clock) / 1000;
      }
      frame := Some(Frame(sess, seqNo, target.chan, target.ht, dt, (tRevert - tSwitch) / 1000, prev.chan, prev.ht));
      seqNo := (seqNo + 1) % U32;
      if !i.sendOk {
        return None;
      }
    }

    method CsaTick(i: Turn) returns (frame: Option<Frame>, iw: seq<Hop>)
      modifies this
      ensures (Now(), frame, iw) == AfterGround(old(Now()), i)
    {
      frame, iw := None, [];
      if phase == Burst && i.t >= nextFrame && sent < total {
        frame := SendCommitFrame(i);
        if frame.None? {
          phase := GIdle;
        } else {
          sent := sent + 1;
          nextFrame := i.t + 20000;
          if sent >= total {
            phase := GArmed;
          }
        }
      }
      ghost var g1 := Now();
      assert (g1, frame) == AfterSend(old(Now()), i);
      if phase == GArmed && i.t >= tSwitch {
        baseline := i.rx;
        iw := [target];
        phase := GVerify;
      }
      ghost var g2 := Now();
      assert (g2, iw) == AfterSwitch(g1, i);
      if phase == GVerify && i.t >= tRevert {
        var alive := false;
        if baseline.Some? {
          alive := i.rx != baseline;
        }
        if !alive && !noRevert {
          iw := iw + [prev];
        }
        phase := GIdle;
      }
      assert iw == AfterSwitch(g1, i).1 + AfterVerify(g2, i).1;
    }
  }
}
