/** The capture loop of ground/wfb_logger.c: sessions, batched transactions and
    the idle-run filter, over a trace of what reaches the database. */
module CaptureLog {
  import opened Runs

  const COMMIT_EVERY := 20
  const COMMIT_SECS := 2.0

  /** What `derive` reads out of a datagram; absent counts are 0. */
  datatype Derived = Derived(isRxAnt: bool, hasRssi: bool, hasSnr: bool, hasMcs: bool, pktAll: int, pktUniq: int,
                             pktLost: int, fecRec: int, decErr: int)

  /** A datagram that parses to an object is valid. */
  datatype Datagram = Malformed | Valid(derived: Derived, raw: string)

  /** derived_is_empty: an rx_ant datagram that reports no reception at all. */
  predicate Idle(d: Datagram) {
    && d.Valid? && d.derived.isRxAnt && !d.derived.hasRssi && !d.derived.hasSnr && !d.derived.hasMcs
    && d.derived.pktAll == 0 && d.derived.pktUniq == 0 && d.derived.pktLost == 0 && d.derived.fecRec == 0
    && d.derived.decErr == 0
  }

  datatype Received = Nothing | Got(datagram: Datagram)

  /** What one pass of the loop meets: the stop and roll flags, the datagram,
      whether a session row can be created, and the clock where it is read. */
  datatype Pass = Pass(stop: bool, roll: bool, duration: int, received: Received, createOk: bool,
                       at: real, now: real, after: real)

  datatype Row = Row(session: int, datagram: Datagram)

  /** A sealed session with the counts it closed with. */
  datatype Seal = Seal(session: int, records: nat, dropped: nat)

  /** The loop's variables (`session` is -1 for none), then the database: all rows
      inserted, how many of them are committed, the sessions sealed with their
      counts; and for each session created the valid datagrams that reached it. */
  datatype State = State(session: int, records: nat, bad: nat, dropped: nat, idleRun: bool, start: real,
                         inTxn: bool, pend: nat, lastCommit: real, maxDuration: int,
                         rows: seq<Row>, committed: nat, sealed: seq<Seal>, inputs: seq<seq<Datagram>>)

  function Initial(maxDuration: int, t: real): State {
    State(-1, 0, 0, 0, false, 0.0, false, 0, t, maxDuration, [], 0, [], [])
  }

  // ---- What the steps of the loop do

  function BeginTxn(s: State): State {
    s.(inTxn := true)
  }

  function CommitTxn(s: State, t: real): State {
    s.(inTxn := false, committed := if s.inTxn then |s.rows| else s.committed, lastCommit := t)
  }

  function CloseSession(s: State, t: real): State {
    if s.session < 0 then s else CommitTxn(s, t).(session := -1, sealed := s.sealed + [Seal(s.session, s.records, s.dropped)])
  }

  /** The session a valid datagram belongs to, created if there is none. */
  function OpenSession(s: State, ok: bool, t: real): State {
    if s.session >= 0 then s
    else if !ok then CommitTxn(BeginTxn(s), t)
    else
      BeginTxn(s).(session := |s.inputs|, inputs := s.inputs + [[]], start := t, records := 0, bad := 0, dropped := 0,
                   idleRun := false)
  }

  function Noted(s: State, d: Datagram): State
    requires 0 <= s.session < |s.inputs|
  {
    s.(inputs := s.inputs[s.session := s.inputs[s.session] + [d]])
  }

  function Record(s: State, dropIdle: bool, d: Datagram): State
    requires d.Valid? && 0 <= s.session < |s.inputs|
  {
    var s := Noted(s, d);
    var idle := dropIdle && Idle(d);
    if idle && s.idleRun then s.(dropped := s.dropped + 1)
    else
      BeginTxn(s).(rows := s.rows + [Row(s.session, d)], records := s.records + 1, pend := s.pend + 1, idleRun := idle)
  }

  predicate Sane(s: State) {
    s.session < |s.inputs|
  }

  function Take(s: State, dropIdle: bool, p: Pass): (r: State)
    requires Sane(s)
    ensures Sane(r)
  {
    match p.received
    case Nothing => s
    case Got(Malformed) => s.(bad := s.bad + 1)
    case Got(d) =>
      var s := OpenSession(s, p.createOk, p.at);
      if s.session < 0 then s else Record(s, dropIdle, d)
  }

  function Roll(s: State, p: Pass): State {
    if p.roll then CloseSession(s.(maxDuration := if p.duration >= 0 then p.duration else s.maxDuration), p.after) else s
  }

  function Expire(s: State, p: Pass): State {
    if s.session >= 0 && s.maxDuration > 0 && p.now - s.start >= s.maxDuration as real then CloseSession(s, p.after)
    else s
  }

  function Flush(s: State, p: Pass): State {
    if s.pend >= COMMIT_EVERY || p.now - s.lastCommit >= COMMIT_SECS then
      if s.pend > 0 then CommitTxn(s, p.after).(pend := 0) else s.(lastCommit := p.now)
    else s
  }

  function Turn(s: State, dropIdle: bool, p: Pass): (r: State)
    requires Sane(s)
    ensures Sane(r)
  {
    Flush(Expire(Roll(Take(s, dropIdle, p), p), p), p)
  }

  /** The clean shutdown. */
  function Shutdown(s: State, t: real): State {
    CloseSession(if s.pend > 0 then CommitTxn(s, t) else s, t)
  }

  // ---- The loop

  class Capture {
    const dropIdle: bool
    var session: int
    var records: nat
    var bad: nat
    var dropped: nat
    var idleRun: bool
    var start: real
    var inTxn: bool
    var pend: nat
    var lastCommit: real
    var maxDuration: int
    var rows: seq<Row>
    var committed: nat
    var sealed: seq<Seal>
    var inputs: seq<seq<Datagram>>

    function Now(): State
      reads this
    {
      State(session, records, bad, dropped, idleRun, start, inTxn, pend, lastCommit, maxDuration, rows, committed,
            sealed, inputs)
    }

    constructor (dropIdle: bool, maxDuration: int, t: real)
      ensures this.dropIdle == dropIdle && Now() == Initial(maxDuration, t)
    {
      this.dropIdle, this.maxDuration := dropIdle, maxDuration;
      session, records, bad, dropped := -1, 0, 0, 0;
      idleRun, start := false, 0.0;
      inTxn, pend, lastCommit := false, 0, t;
      rows, committed, sealed, inputs := [], 0, [], [];
    }

    method Begin()
      modifies this`inTxn
      ensures Now() == BeginTxn(old(Now()))
    {
      inTxn := true;
    }

    method Commit(t: real)
      modifies this`inTxn, this`committed, this`lastCommit
      ensures Now() == CommitTxn(old(Now()), t)
    {
      if inTxn {
        committed := |rows|;
        inTxn := false;
      }
      lastCommit := t;
    }

    method Close(t: real)
      modifies this
      ensures Now() == CloseSession(old(Now()), t)
    {
      if session >= 0 {
        Commit(t);
        sealed := sealed + [Seal(session, records, dropped)];
        session := -1;
      }
    }

    method Open(ok: bool, t: real)
      modifies this
      ensures Now() == OpenSession(old(Now()), ok, t)
    {
      if session < 0 {
        Begin();
        if !ok {
          Commit(t);
        } else {
          session := |inputs|;
          inputs := inputs + [[]];
          start := t;
          records, bad, dropped, idleRun := 0, 0, 0, false;
        }
      }
    }

    method Keep(d: Datagram)
      requires d.Valid? && 0 <= session < |inputs|
      modifies this
      ensures Now() == Record(old(Now()), dropIdle, d)
    {
      inputs := inputs[session := inputs[session] + [d]];
      var empty := dropIdle && Idle(d);
      if empty && idleRun {
        dropped := dropped + 1;
      } else {
        Begin();
        rows := rows + [Row(session, d)];
        records, pend := records + 1, pend + 1;
        idleRun := empty;
      }
    }

    method TakeDatagram(p: Pass)
      requires Sane(Now())
      modifies this
      ensures Now() == Take(old(Now()), dropIdle, p)
    {
      match p.received
      case Nothing =>
      case Got(Malformed) =>
        bad := bad + 1;
      case Got(d) =>
        Open(p.createOk, p.at);
        if session >= 0 {
          Keep(d);
        }
    }

    method RollAndExpire(p: Pass)
      modifies this
      ensures Now() == Expire(Roll(old(Now()), p), p)
    {
      if p.roll {
        if p.duration >= 0 {
          maxDuration := p.duration;
        }
        Close(p.after);
      }
      ghost var rolled := Now();
      assert rolled == Roll(old(Now()), p);
      if session >= 0 && maxDuration > 0 && p.now - start >= maxDuration as real {
        Close(p.after);
      }
    }

    /** One pass of the loop. */
    method Loop(p: Pass)
      requires Sane(Now())
      modifies this
      ensures Now() == Turn(old(Now()), dropIdle, p)
    {
      TakeDatagram(p);
      RollAndExpire(p);
      if pend >= COMMIT_EVERY || p.now - lastCommit >= COMMIT_SECS {
        if pend > 0 {
          Commit(p.after);
          pend := 0;
        } else {
          lastCommit := p.now;
        }
      }
    }

    /** capture_run: passes until one finds the stop flag, then the shutdown. */
    method CaptureRun(passes: seq<Pass>, t: real) returns (n: nat)
      requires Sane(Now())
      modifies this
      ensures n <= |passes| && (forall i :: 0 <= i < n ==> !passes[i].stop) && (n < |passes| ==> passes[n].stop)
      ensures Sane(old(Now())) && Now() == Shutdown(After(old(Now()), dropIdle, passes[..n]), t)
    {
      ghost var s0 := Now();
      n := 0;
      while n < |passes| && !passes[n].stop
        invariant n <= |passes| && forall i :: 0 <= i < n ==> !passes[i].stop
        invariant Sane(Now()) && Now() == After(s0, dropIdle, passes[..n])
      {
        OnePassMore(s0, dropIdle, passes, n);
        Loop(passes[n]);
        n := n + 1;
      }
      if pend > 0 {
        Commit(t);
      }
      Close(t);
    }
  }

  // ---- Runs

  function After(s: State, dropIdle: bool, run: seq<Pass>): (r: State)
    requires Sane(s)
    ensures Sane(r)
  {
    if run == [] then s else Turn(After(s, dropIdle, Front(run)), dropIdle, Last(run))
  }

  lemma {:induction false} OnePassMore(s: State, dropIdle: bool, run: seq<Pass>, n: nat)
    requires Sane(s) && n < |run|
    ensures After(s, dropIdle, run[..n + 1]) == Turn(After(s, dropIdle, run[..n]), dropIdle, run[n])
  {
    assert Front(run[..n + 1]) == run[..n];
  }

  /** Each idle run collapsed to its first datagram. */
  function Collapsed(ds: seq<Datagram>): seq<Datagram> {
    if ds == [] then []
    else if EndsIdle(ds) && EndsIdle(Front(ds)) then Collapsed(Front(ds))
    else Collapsed(Front(ds)) + [Last(ds)]
  }

  predicate EndsIdle(ds: seq<Datagram>) {
    ds != [] && Idle(Last(ds))
  }

  function Kept(dropIdle: bool, ds: seq<Datagram>): seq<Datagram> {
    if dropIdle then Collapsed(ds) else ds
  }

  /** A datagram that is no antenna report, or reports some signal or packet. */
  predicate Reports(d: Datagram) {
    d.Valid? ==>
      || !d.derived.isRxAnt || d.derived.hasRssi || d.derived.hasSnr || d.derived.hasMcs
      || d.derived.pktAll != 0 || d.derived.pktUniq != 0 || d.derived.pktLost != 0 || d.derived.fecRec != 0
      || d.derived.decErr != 0
  }

  function Busy(ds: seq<Datagram>): seq<Datagram> {
    if ds == [] then [] else Busy(Front(ds)) + if Reports(Last(ds)) then [Last(ds)] else []
  }

  /** Collapsing keeps every datagram that reports something, never leaves two
      others in a row, keeps one at the end if there was one, and has nothing left
      to do on its own result. */
  lemma {:induction false} CollapsedMeans(ds: seq<Datagram>)
    ensures var c := Collapsed(ds);
            && Busy(c) == Busy(ds) && EndsIdle(c) == EndsIdle(ds) && Collapsed(c) == c
            && (ds != [] && !Reports(Last(ds)) ==> c != [] && !Reports(Last(c)))
            && forall i :: 0 < i < |c| ==> Reports(c[i - 1]) || Reports(c[i])
  {
    if ds != [] {
      CollapsedMeans(Front(ds));
      var c, d := Collapsed(Front(ds)), Last(ds);
      if !(EndsIdle(ds) && EndsIdle(Front(ds))) {
        assert Front(c + [d]) == c && Last(c + [d]) == d;
        assert c != [] && Idle(c[|c| - 1]) ==> EndsIdle(c);
      }
    }
  }

  /** The rows of a session, in order. */
  function RowsOf(rows: seq<Row>, session: int): seq<Datagram> {
    if rows == [] then []
    else
      RowsOf(Front(rows), session)
        + if Last(rows).session == session then [Last(rows).datagram] else []
  }

  // ---- Durability

  /** Rows are uncommitted only inside a transaction with pending rows. */
  predicate Durable(s: State) {
    && s.committed <= |s.rows| <= s.committed + s.pend
    && (!s.inTxn ==> s.committed == |s.rows|)
    && (s.inTxn ==> s.pend > 0)
  }

  lemma {:induction false} TakeDurable(s: State, dropIdle: bool, p: Pass)
    requires Sane(s) && Durable(s)
    ensures Durable(Take(s, dropIdle, p)) && Take(s, dropIdle, p).pend <= s.pend + 1
  {
  }

  lemma {:induction false} TurnDurable(s: State, dropIdle: bool, p: Pass)
    requires Sane(s) && Durable(s) && s.pend < COMMIT_EVERY
    ensures var r := Turn(s, dropIdle, p); Durable(r) && r.pend < COMMIT_EVERY
  {
    TakeDurable(s, dropIdle, p);
  }

  /** At every loop end fewer than 20 rows are uncommitted, and an open transaction
      has a pending row. */
  lemma {:induction false} FewUncommitted(maxDuration: int, t: real, dropIdle: bool, run: seq<Pass>)
    ensures var s := After(Initial(maxDuration, t), dropIdle, run);
            && Durable(s) && s.pend < COMMIT_EVERY
            && |s.rows| - s.committed < 20 && (s.inTxn ==> s.pend > 0)
  {
    if run != [] {
      FewUncommitted(maxDuration, t, dropIdle, Front(run));
      TurnDurable(After(Initial(maxDuration, t), dropIdle, Front(run)), dropIdle, Last(run));
    }
  }

  // ---- Sessions

  /** Sessions are sealed in the order of their creation, all but the open one. */
  predicate SealedInOrder(s: State) {
    && |s.sealed| == (if s.session >= 0 then |s.inputs| - 1 else |s.inputs|)
    && (s.session == -1 || s.session == |s.inputs| - 1 >= 0)
    && forall i :: 0 <= i < |s.sealed| ==> s.sealed[i].session == i
  }

  lemma {:induction false} OpenSeals(s: State, ok: bool, t: real)
    requires Sane(s) && SealedInOrder(s)
    ensures SealedInOrder(OpenSession(s, ok, t))
  {
  }

  lemma {:induction false} TakeSeals(s: State, dropIdle: bool, p: Pass)
    requires Sane(s) && SealedInOrder(s)
    ensures SealedInOrder(Take(s, dropIdle, p))
  {
    if p.received.Got? && p.received.datagram.Valid? {
      OpenSeals(s, p.createOk, p.at);
    }
  }

  lemma {:induction false} CloseSeals(s: State, t: real)
    requires SealedInOrder(s)
    ensures SealedInOrder(CloseSession(s, t))
  {
  }

  lemma {:induction false} TurnSeals(s: State, dropIdle: bool, p: Pass)
    requires Sane(s) && SealedInOrder(s)
    ensures SealedInOrder(Turn(s, dropIdle, p))
  {
    TakeSeals(s, dropIdle, p);
    RollSeals(Take(s, dropIdle, p), p);
  }

  lemma {:induction false} RollSeals(s: State, p: Pass)
    requires SealedInOrder(s)
    ensures SealedInOrder(Expire(Roll(s, p), p))
  {
    CloseSeals(s.(maxDuration := if p.duration >= 0 then p.duration else s.maxDuration), p.after);
    CloseSeals(Roll(s, p), p.after);
  }

  lemma {:induction false} SealsInOrder(maxDuration: int, t: real, dropIdle: bool, run: seq<Pass>)
    ensures SealedInOrder(After(Initial(maxDuration, t), dropIdle, run))
  {
    if run != [] {
      SealsInOrder(maxDuration, t, dropIdle, Front(run));
      TurnSeals(After(Initial(maxDuration, t), dropIdle, Front(run)), dropIdle, Last(run));
    }
  }

  /** After stop every row is committed and every session created is sealed
      exactly once, whatever rolls and timeouts came before. */
  lemma {:induction false} StopSealsAll(maxDuration: int, t: real, dropIdle: bool, run: seq<Pass>, end: real)
    ensures var s := Shutdown(After(Initial(maxDuration, t), dropIdle, run), end);
            && s.session == -1 && !s.inTxn && s.committed == |s.rows|
            && |s.sealed| == |s.inputs| && forall i :: 0 <= i < |s.sealed| ==> s.sealed[i].session == i
  {
    FewUncommitted(maxDuration, t, dropIdle, run);
    SealsInOrder(maxDuration, t, dropIdle, run);
  }

  // ---- Accounting

  /** The rows of every session are what the filter keeps of its input. */
  predicate Filtered(s: State, dropIdle: bool, i: nat)
    requires i < |s.inputs|
  {
    && RowsOf(s.rows, i) == Kept(dropIdle, s.inputs[i])
    && (forall j :: 0 <= j < |s.inputs[i]| ==> s.inputs[i][j].Valid?)
    && (i == s.session ==>
          && s.records == |RowsOf(s.rows, i)| && s.records + s.dropped == |s.inputs[i]|
          && s.idleRun == (dropIdle && EndsIdle(s.inputs[i])))
  }

  predicate Accounted(s: State, dropIdle: bool) {
    && (s.session >= 0 ==> s.session < |s.inputs|)
    && (forall i :: 0 <= i < |s.inputs| ==> Filtered(s, dropIdle, i))
    && (forall r :: r in s.rows ==> r.session < |s.inputs|)
  }

  lemma {:induction false} NoRows(rows: seq<Row>, session: int)
    requires forall r :: r in rows ==> r.session < session
    ensures RowsOf(rows, session) == []
  {
    if rows != [] {
      NoRows(Front(rows), session);
    }
  }

  lemma {:induction false} OpenAccounts(s: State, ok: bool, t: real, dropIdle: bool)
    requires Sane(s) && Accounted(s, dropIdle)
    ensures Accounted(OpenSession(s, ok, t), dropIdle)
  {
    NoRows(s.rows, |s.inputs|);
    var r := OpenSession(s, ok, t);
    forall i | 0 <= i < |r.inputs| ensures Filtered(r, dropIdle, i) {
      if i < |s.inputs| {
        assert Filtered(s, dropIdle, i);
      }
    }
  }

  lemma {:induction false} RowsOfAppend(rows: seq<Row>, r: Row, session: int)
    ensures RowsOf(rows + [r], session) == RowsOf(rows, session) + if r.session == session then [r.datagram] else []
  {
    assert (rows + [r])[..|rows|] == rows;
  }

  lemma {:induction false} CollapsedAppend(ds: seq<Datagram>, d: Datagram)
    ensures Collapsed(ds + [d])
         == if EndsIdle(ds) && Idle(d) then Collapsed(ds) else Collapsed(ds) + [d]
  {
    assert (ds + [d])[..|ds|] == ds;
  }

  lemma {:induction false} RecordAccounts(s: State, d: Datagram, dropIdle: bool)
    requires Sane(s) && Accounted(s, dropIdle) && d.Valid? && s.session >= 0
    ensures Accounted(Record(s, dropIdle, d), dropIdle)
  {
    var r := Record(s, dropIdle, d);
    forall i | 0 <= i < |r.inputs| ensures Filtered(r, dropIdle, i) {
      assert Filtered(s, dropIdle, i);
      if i == s.session {
        RecordHere(s, d, dropIdle);
      } else {
        RowsOfAppend(s.rows, Row(s.session, d), i);
      }
    }
  }

  lemma {:induction false} RecordHere(s: State, d: Datagram, dropIdle: bool)
    requires Sane(s) && d.Valid? && s.session >= 0 && Filtered(s, dropIdle, s.session)
    ensures Filtered(Record(s, dropIdle, d), dropIdle, s.session)
  {
    CollapsedAppend(s.inputs[s.session], d);
    RowsOfAppend(s.rows, Row(s.session, d), s.session);
  }

  lemma {:induction false} TakeAccounts(s: State, p: Pass, dropIdle: bool)
    requires Sane(s) && Accounted(s, dropIdle)
    ensures Accounted(Take(s, dropIdle, p), dropIdle)
  {
    match p.received
    case Nothing =>
    case Got(Malformed) => SameDataAccounts(s, s.(bad := s.bad + 1), dropIdle);
    case Got(d) =>
      OpenAccounts(s, p.createOk, p.at, dropIdle);
      var o := OpenSession(s, p.createOk, p.at);
      if o.session >= 0 {
        RecordAccounts(o, d, dropIdle);
      }
  }

  /** What the rest of the loop leaves alone. */
  predicate SameData(s: State, r: State) {
    && r.rows == s.rows && r.inputs == s.inputs && (r.session == s.session || r.session == -1)
    && r.records == s.records && r.dropped == s.dropped && r.idleRun == s.idleRun
  }

  lemma {:induction false} SameDataAccounts(s: State, r: State, dropIdle: bool)
    requires Accounted(s, dropIdle) && SameData(s, r)
    ensures Accounted(r, dropIdle)
  {
    forall i | 0 <= i < |r.inputs| ensures Filtered(r, dropIdle, i) {
      assert Filtered(s, dropIdle, i);
    }
  }

  lemma {:induction false} RestKeepsData(s: State, p: Pass)
    ensures SameData(s, Flush(Expire(Roll(s, p), p), p))
  {
  }

  lemma {:induction false} TurnAccounts(s: State, p: Pass, dropIdle: bool)
    requires Sane(s) && Accounted(s, dropIdle)
    ensures Accounted(Turn(s, dropIdle, p), dropIdle)
  {
    TakeAccounts(s, p, dropIdle);
    RestKeepsData(Take(s, dropIdle, p), p);
    SameDataAccounts(Take(s, dropIdle, p), Turn(s, dropIdle, p), dropIdle);
  }

  /** In each session the kept rows are the valid datagrams with each idle run
      collapsed to its first, and in the open one valid = kept + dropped. */
  lemma {:induction false} EveryDatagramAccounted(maxDuration: int, t: real, dropIdle: bool, run: seq<Pass>)
    ensures Accounted(After(Initial(maxDuration, t), dropIdle, run), dropIdle)
  {
    if run != [] {
      EveryDatagramAccounted(maxDuration, t, dropIdle, Front(run));
      TurnAccounts(After(Initial(maxDuration, t), dropIdle, Front(run)), Last(run), dropIdle);
    } else {
      NothingAccounted(maxDuration, t, dropIdle);
    }
  }

  lemma {:induction false} NothingAccounted(maxDuration: int, t: real, dropIdle: bool)
    ensures Accounted(Initial(maxDuration, t), dropIdle)
  {
  }

  /** Every sealed session closed with the counts of its rows and its input. */
  predicate Tallied(s: State) {
    forall i :: 0 <= i < |s.sealed| ==>
      var k := s.sealed[i].session;
      && 0 <= k < |s.inputs| && s.sealed[i].records == |RowsOf(s.rows, k)|
      && s.sealed[i].records + s.sealed[i].dropped == |s.inputs[k]|
  }

  lemma {:induction false} OpenTallies(s: State, ok: bool, t: real)
    requires Sane(s) && SealedInOrder(s) && Tallied(s)
    ensures Tallied(OpenSession(s, ok, t))
  {
  }

  lemma {:induction false} RecordTallies(s: State, d: Datagram, dropIdle: bool)
    requires Sane(s) && SealedInOrder(s) && Tallied(s) && d.Valid? && s.session >= 0
    ensures Tallied(Record(s, dropIdle, d))
  {
    forall i | 0 <= i < |s.sealed| ensures RowsOf(s.rows + [Row(s.session, d)], i) == RowsOf(s.rows, i) {
      RowsOfAppend(s.rows, Row(s.session, d), i);
    }
  }

  lemma {:induction false} TakeTallies(s: State, p: Pass, dropIdle: bool)
    requires Sane(s) && SealedInOrder(s) && Tallied(s)
    ensures Tallied(Take(s, dropIdle, p))
  {
    match p.received
    case Nothing =>
    case Got(Malformed) =>
    case Got(d) =>
      OpenTallies(s, p.createOk, p.at);
      OpenSeals(s, p.createOk, p.at);
      var o := OpenSession(s, p.createOk, p.at);
      if o.session >= 0 {
        RecordTallies(o, d, dropIdle);
      }
  }

  lemma {:induction false} CloseTallies(s: State, t: real, dropIdle: bool)
    requires Accounted(s, dropIdle) && Tallied(s)
    ensures Tallied(CloseSession(s, t)) && Accounted(CloseSession(s, t), dropIdle)
  {
    if s.session >= 0 {
      assert Filtered(s, dropIdle, s.session);
    }
    SameDataAccounts(s, CloseSession(s, t), dropIdle);
  }

  lemma {:induction false} RollTallies(s: State, p: Pass, dropIdle: bool)
    requires Accounted(s, dropIdle) && Tallied(s)
    ensures Tallied(Flush(Expire(Roll(s, p), p), p))
  {
    var u := s.(maxDuration := if p.duration >= 0 then p.duration else s.maxDuration);
    SameDataAccounts(s, u, dropIdle);
    CloseTallies(u, p.after, dropIdle);
    CloseTallies(Roll(s, p), p.after, dropIdle);
    FlushTallies(Expire(Roll(s, p), p), p);
  }

  lemma {:induction false} FlushTallies(s: State, p: Pass)
    requires Tallied(s)
    ensures Tallied(Flush(s, p))
  {
  }

  /** In every sealed session valid datagrams = kept + dropped. */
  lemma {:induction false} EverySealTallied(maxDuration: int, t: real, dropIdle: bool, run: seq<Pass>)
    ensures Tallied(After(Initial(maxDuration, t), dropIdle, run))
  {
    if run != [] {
      EverySealTallied(maxDuration, t, dropIdle, Front(run));
      EveryDatagramAccounted(maxDuration, t, dropIdle, Front(run));
      SealsInOrder(maxDuration, t, dropIdle, Front(run));
      TurnTallies(After(Initial(maxDuration, t), dropIdle, Front(run)), Last(run), dropIdle);
    }
  }

  lemma {:induction false} TurnTallies(s: State, p: Pass, dropIdle: bool)
    requires Sane(s) && SealedInOrder(s) && Tallied(s) && Accounted(s, dropIdle)
    ensures Tallied(Turn(s, dropIdle, p))
  {
    TakeTallies(s, p, dropIdle);
    TakeAccounts(s, p, dropIdle);
    RollTallies(Take(s, dropIdle, p), p, dropIdle);
  }

  /** After stop that is every session: its rows are its input with idle runs
      collapsed, and its counts add up to its input. */
  lemma {:induction false} EverySessionTallied(maxDuration: int, t: real, dropIdle: bool, run: seq<Pass>, end: real, i: nat)
    requires i < |Shutdown(After(Initial(maxDuration, t), dropIdle, run), end).inputs|
    ensures var s := Shutdown(After(Initial(maxDuration, t), dropIdle, run), end);
            && |s.sealed| == |s.inputs| && s.sealed[i].session == i
            && RowsOf(s.rows, i) == Kept(dropIdle, s.inputs[i])
            && s.sealed[i].records == |RowsOf(s.rows, i)|
            && s.sealed[i].records + s.sealed[i].dropped == |s.inputs[i]|
  {
    EveryDatagramAccounted(maxDuration, t, dropIdle, run);
    EverySealTallied(maxDuration, t, dropIdle, run);
    StopSealsAll(maxDuration, t, dropIdle, run, end);
    var s := After(Initial(maxDuration, t), dropIdle, run);
    var u := if s.pend > 0 then CommitTxn(s, end) else s;
    SameDataAccounts(s, u, dropIdle);
    CloseTallies(u, end, dropIdle);
    assert Filtered(Shutdown(s, end), dropIdle, i);
  }
}
