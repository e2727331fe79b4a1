/** The capture loop told by its passes alone: when a session is open, what reaches
    it, and how long a row can wait for its commit. */
module CaptureSessions {
  import opened Runs
  import opened CaptureLog

  // ---- The story of a run

  /** The duration in force: the latest one a roll brought, else the initial one. */
  function InForce(maxDuration: int, run: seq<Pass>): int {
    if run == [] then maxDuration
    else if Last(run).roll && Last(run).duration >= 0 then Last(run).duration
    else InForce(maxDuration, Front(run))
  }

  /** Whether a session is open, since when, the malformed datagrams since the
      latest was opened, and the valid ones of every session there was. */
  datatype Story = Story(open: bool, since: real, bad: nat, inputs: seq<seq<Datagram>>)

  /** A valid datagram opens a session if none is open and one can be created, and
      then belongs to it. */
  function Opened(y: Story, p: Pass): Story {
    if p.received.Got? && p.received.datagram.Valid? && !y.open && p.createOk then Story(true, p.at, 0, y.inputs + [[]]) else y
  }

  function Joined(y: Story, p: Pass): Story {
    if p.received.Got? && p.received.datagram.Valid? && y.open && y.inputs != [] then
      y.(inputs := Front(y.inputs) + [Last(y.inputs) + [p.received.datagram]])
    else if p.received == Got(Malformed) then y.(bad := y.bad + 1)
    else y
  }

  /** The pass asked for no roll, and the session is younger than `duration`. */
  predicate Lasts(y: Story, p: Pass, duration: int) {
    y.open && !p.roll && (duration <= 0 || p.now - y.since < duration as real)
  }

  function StoryOf(maxDuration: int, run: seq<Pass>): Story {
    if run == [] then Story(false, 0.0, 0, [])
    else
      var y := Joined(Opened(StoryOf(maxDuration, Front(run)), Last(run)), Last(run));
      y.(open := Lasts(y, Last(run), InForce(maxDuration, run)))
  }

  /** The loop's variables tell the same story. */
  predicate Tells(s: State, y: Story) {
    && s.inputs == y.inputs && s.bad == y.bad && (s.session >= 0 <==> y.open)
    && (y.open ==> s.session == |y.inputs| - 1 && s.start == y.since)
  }

  lemma {:induction false} TakeTells(s: State, y: Story, dropIdle: bool, p: Pass)
    requires Sane(s) && Tells(s, y)
    ensures Tells(Take(s, dropIdle, p), Joined(Opened(y, p), p))
  {
    if p.received.Got? && p.received.datagram.Valid? {
      OpenTells(s, y, p);
      var o := OpenSession(s, p.createOk, p.at);
      if o.session >= 0 {
        RecordTells(o, Opened(y, p), dropIdle, p);
      }
    }
  }

  lemma {:induction false} OpenTells(s: State, y: Story, p: Pass)
    requires Sane(s) && Tells(s, y) && p.received.Got? && p.received.datagram.Valid?
    ensures Tells(OpenSession(s, p.createOk, p.at), Opened(y, p))
  {
  }

  lemma {:induction false} RecordTells(s: State, y: Story, dropIdle: bool, p: Pass)
    requires Sane(s) && Tells(s, y) && s.session >= 0 && p.received.Got? && p.received.datagram.Valid?
    ensures Tells(Record(s, dropIdle, p.received.datagram), Joined(y, p))
  {
    var d := p.received.datagram;
    assert s.inputs[s.session := s.inputs[s.session] + [d]] == Front(s.inputs) + [Last(s.inputs) + [d]];
  }

  lemma {:induction false} RollTells(s: State, y: Story, p: Pass)
    requires Tells(s, y)
    ensures var duration := if p.roll && p.duration >= 0 then p.duration else s.maxDuration;
            var r := Expire(Roll(s, p), p);
            r.maxDuration == duration && Tells(r, y.(open := Lasts(y, p, duration)))
  {
  }

  lemma {:induction false} TakeKeeps(s: State, dropIdle: bool, p: Pass)
    requires Sane(s)
    ensures Take(s, dropIdle, p).maxDuration == s.maxDuration && Take(s, dropIdle, p).sealed == s.sealed
  {
  }

  /** In every run from the start: a session is open, and holds what it holds,
      exactly as the passes say. */
  lemma {:induction false} SessionsAsTold(maxDuration: int, t: real, dropIdle: bool, run: seq<Pass>)
    ensures var s := After(Initial(maxDuration, t), dropIdle, run);
            Tells(s, StoryOf(maxDuration, run)) && s.maxDuration == InForce(maxDuration, run)
  {
    if run != [] {
      SessionsAsTold(maxDuration, t, dropIdle, Front(run));
      var s, y, p := After(Initial(maxDuration, t), dropIdle, Front(run)), StoryOf(maxDuration, Front(run)), Last(run);
      TakeTells(s, y, dropIdle, p);
      TakeKeeps(s, dropIdle, p);
      RollTells(Take(s, dropIdle, p), Joined(Opened(y, p), p), p);
    }
  }

  /** A pass appends the seal of its session exactly when it ends one. */
  lemma {:induction false} SealsAsTold(maxDuration: int, t: real, dropIdle: bool, run: seq<Pass>)
    requires run != []
    ensures var s, r := After(Initial(maxDuration, t), dropIdle, Front(run)), After(Initial(maxDuration, t), dropIdle, run);
            var y := Joined(Opened(StoryOf(maxDuration, Front(run)), Last(run)), Last(run));
            if y.open && !StoryOf(maxDuration, run).open then
              && |r.sealed| == |s.sealed| + 1 && r.sealed[..|s.sealed|] == s.sealed
              && r.sealed[|s.sealed|] == Seal(|y.inputs| - 1, r.records, r.dropped)
            else r.sealed == s.sealed
  {
    SessionsAsTold(maxDuration, t, dropIdle, Front(run));
    SessionsAsTold(maxDuration, t, dropIdle, run);
    var s, p := After(Initial(maxDuration, t), dropIdle, Front(run)), Last(run);
    TakeTells(s, StoryOf(maxDuration, Front(run)), dropIdle, p);
    TakeKeeps(s, dropIdle, p);
    RestSeals(Take(s, dropIdle, p), p);
  }

  lemma {:induction false} RestSeals(s: State, p: Pass)
    ensures var r := Flush(Expire(Roll(s, p), p), p);
            if s.session >= 0 && r.session < 0 then r.sealed == s.sealed + [Seal(s.session, r.records, r.dropped)]
            else r.sealed == s.sealed
  {
  }

  // ---- When rows are committed

  /** The last pass ended the session that was open or opened in it. */
  predicate Ends(maxDuration: int, run: seq<Pass>)
    requires run != []
  {
    Joined(Opened(StoryOf(maxDuration, Front(run)), Last(run)), Last(run)).open && !StoryOf(maxDuration, run).open
  }

  /** It should have opened one and could not. */
  predicate FailsToOpen(maxDuration: int, run: seq<Pass>)
    requires run != []
  {
    !StoryOf(maxDuration, Front(run)).open && !Last(run).createOk && Last(run).received.Got? && Last(run).received.datagram.Valid?
  }

  /** The rows since the last batch, and the time of the last commit or the last
      look that found nothing to commit. */
  datatype Batch = Batch(pending: nat, since: real)

  function Grown(b: Batch, rows: nat): Batch {
    Batch(b.pending + rows, b.since)
  }

  predicate Full(b: Batch, p: Pass) {
    b.pending >= 20 || p.now - b.since >= 2.0
  }

  function Emptied(b: Batch, p: Pass): Batch {
    if Full(b, p) then Batch(0, if b.pending > 0 then p.after else p.now) else b
  }

  /** How many rows the last pass inserted. */
  function NewRows(maxDuration: int, t: real, dropIdle: bool, run: seq<Pass>): nat
    requires run != []
  {
    var s := After(Initial(maxDuration, t), dropIdle, Front(run));
    TurnInserts(s, dropIdle, Last(run));
    |After(Initial(maxDuration, t), dropIdle, run).rows| - |s.rows|
  }

  /** The batch of a pass before it is full or not. */
  function BatchIn(maxDuration: int, t: real, dropIdle: bool, run: seq<Pass>): Batch
    requires run != []
    decreases |run|, 0
  {
    var b := Grown(BatchOf(maxDuration, t, dropIdle, Front(run)), NewRows(maxDuration, t, dropIdle, run));
    if Ends(maxDuration, run) then b.(since := Last(run).after)
    else if FailsToOpen(maxDuration, run) then b.(since := Last(run).at)
    else b
  }

  function BatchOf(maxDuration: int, t: real, dropIdle: bool, run: seq<Pass>): Batch
    decreases |run|, 1
  {
    if run == [] then Batch(0, t) else Emptied(BatchIn(maxDuration, t, dropIdle, run), Last(run))
  }

  /** A pass commits everything if it ends a session, or 20 rows are pending, or
      one is and the last commit is two seconds ago; otherwise it commits nothing.
      Trying in vain to open a session also counts as a commit. */
  lemma {:induction false} CommitsIff(maxDuration: int, t: real, dropIdle: bool, run: seq<Pass>)
    requires run != []
    ensures var s, r := After(Initial(maxDuration, t), dropIdle, Front(run)), After(Initial(maxDuration, t), dropIdle, run);
            var b := BatchIn(maxDuration, t, dropIdle, run);
            r.committed == if Ends(maxDuration, run) || (b.pending > 0 && Full(b, Last(run))) then |r.rows| else s.committed
  {
    BatchHolds(maxDuration, t, dropIdle, Front(run));
    PassCommits(maxDuration, t, dropIdle, run);
  }

  lemma {:induction false} BatchHolds(maxDuration: int, t: real, dropIdle: bool, run: seq<Pass>)
    ensures var s := After(Initial(maxDuration, t), dropIdle, run);
            BatchOf(maxDuration, t, dropIdle, run) == Batch(s.pend, s.lastCommit)
  {
    if run != [] {
      BatchHolds(maxDuration, t, dropIdle, Front(run));
      PassCommits(maxDuration, t, dropIdle, run);
    }
  }

  lemma {:induction false} PassCommits(maxDuration: int, t: real, dropIdle: bool, run: seq<Pass>)
    requires run != []
    requires var s := After(Initial(maxDuration, t), dropIdle, Front(run));
             BatchOf(maxDuration, t, dropIdle, Front(run)) == Batch(s.pend, s.lastCommit)
    ensures var s, r := After(Initial(maxDuration, t), dropIdle, Front(run)), After(Initial(maxDuration, t), dropIdle, run);
            var b := BatchIn(maxDuration, t, dropIdle, run);
            && Batch(r.pend, r.lastCommit) == Emptied(b, Last(run))
            && r.committed == if Ends(maxDuration, run) || (b.pending > 0 && Full(b, Last(run))) then |r.rows| else s.committed
  {
    var s, p := After(Initial(maxDuration, t), dropIdle, Front(run)), Last(run);
    SessionsAsTold(maxDuration, t, dropIdle, Front(run));
    SessionsAsTold(maxDuration, t, dropIdle, run);
    FewUncommitted(maxDuration, t, dropIdle, Front(run));
    ClosedOutside(maxDuration, t, dropIdle, Front(run));
    TakeTells(s, StoryOf(maxDuration, Front(run)), dropIdle, p);
    TakePends(s, dropIdle, p);
    TakeDurable(s, dropIdle, p);
    RestCommits(Take(s, dropIdle, p), p);
    RestKeepsData(Take(s, dropIdle, p), p);
  }

  /** Without a session there is no transaction. */
  lemma {:induction false} ClosedOutside(maxDuration: int, t: real, dropIdle: bool, run: seq<Pass>)
    ensures var s := After(Initial(maxDuration, t), dropIdle, run); s.session < 0 ==> !s.inTxn
  {
    if run != [] {
      ClosedOutside(maxDuration, t, dropIdle, Front(run));
      TurnCloses(After(Initial(maxDuration, t), dropIdle, Front(run)), dropIdle, Last(run));
    }
  }

  lemma {:induction false} TurnCloses(s: State, dropIdle: bool, p: Pass)
    requires Sane(s) && (s.session < 0 ==> !s.inTxn)
    ensures var r := Turn(s, dropIdle, p); r.session < 0 ==> !r.inTxn
  {
    var u := Take(s, dropIdle, p);
    assert u.session < 0 ==> !u.inTxn;
  }

  lemma {:induction false} TakePends(s: State, dropIdle: bool, p: Pass)
    requires Sane(s) && Durable(s) && (s.session < 0 ==> !s.inTxn)
    ensures var r := Take(s, dropIdle, p);
            && r.pend == s.pend + (|r.rows| - |s.rows|) && r.committed == s.committed
            && r.lastCommit == if s.session < 0 && !p.createOk && p.received.Got? && p.received.datagram.Valid? then p.at else s.lastCommit
  {
  }

  lemma {:induction false} RestCommits(s: State, p: Pass)
    requires Durable(s)
    ensures var r := Flush(Expire(Roll(s, p), p), p);
            var closed := s.session >= 0 && r.session < 0;
            var b := Batch(s.pend, if closed then p.after else s.lastCommit);
            && Batch(r.pend, r.lastCommit) == Emptied(b, p)
            && r.committed == if closed || (b.pending > 0 && Full(b, p)) then |s.rows| else s.committed
  {
  }

  // ---- How long a row can wait

  /** A clock that does not go back, within a pass and from pass to pass. */
  predicate Clocked(t: real, run: seq<Pass>) {
    run != [] ==>
      && Clocked(t, Front(run))
      && EndOf(t, Front(run)) <= Last(run).at <= Last(run).now <= Last(run).after
  }

  function EndOf(t: real, run: seq<Pass>): real {
    if run == [] then t else Last(run).after
  }

  /** When each row was inserted. */
  function Inserted(s: State, dropIdle: bool, run: seq<Pass>): (ts: seq<real>)
    requires Sane(s) && s.rows == []
    ensures |ts| == |After(s, dropIdle, run).rows|
  {
    if run == [] then []
    else
      var ts := Inserted(s, dropIdle, Front(run));
      TurnInserts(After(s, dropIdle, Front(run)), dropIdle, Last(run));
      if |After(s, dropIdle, run).rows| == |ts| then ts else ts + [Last(run).at]
  }

  lemma {:induction false} TurnInserts(s: State, dropIdle: bool, p: Pass)
    requires Sane(s)
    ensures |s.rows| <= |Turn(s, dropIdle, p).rows| <= |s.rows| + 1
  {
    RestKeepsData(Take(s, dropIdle, p), p);
  }

  /** Uncommitted rows are no older than the last commit, which is not long ago if
      there are any. */
  predicate Waiting(s: State, ts: seq<real>, now: real, end: real)
    requires |ts| == |s.rows|
  {
    && s.lastCommit <= end && s.committed <= |s.rows|
    && (forall j :: s.committed <= j < |ts| ==> s.lastCommit <= ts[j] <= end)
    && (s.committed < |s.rows| ==> now - s.lastCommit < COMMIT_SECS)
  }

  lemma {:induction false} TakeWaits(s: State, ts: seq<real>, dropIdle: bool, p: Pass, end: real)
    requires Sane(s) && |ts| == |s.rows| && s.lastCommit <= end <= p.at && s.committed <= |s.rows|
    requires forall j :: s.committed <= j < |ts| ==> s.lastCommit <= ts[j] <= end
    ensures var r := Take(s, dropIdle, p);
            var us := if |r.rows| == |ts| then ts else ts + [p.at];
            && |us| == |r.rows| && r.lastCommit <= p.at && r.committed <= |r.rows|
            && forall j :: r.committed <= j < |us| ==> r.lastCommit <= us[j] <= p.at
  {
  }

  lemma {:induction false} RestWaits(s: State, ts: seq<real>, p: Pass)
    requires |ts| == |s.rows| && s.lastCommit <= p.at <= p.now <= p.after && Durable(s)
    requires forall j :: s.committed <= j < |ts| ==> s.lastCommit <= ts[j] <= p.at
    ensures var r := Flush(Expire(Roll(s, p), p), p);
            |r.rows| == |ts| && Waiting(r, ts, p.now, p.after)
  {
  }

  lemma {:induction false} RowsWait(maxDuration: int, t: real, dropIdle: bool, run: seq<Pass>)
    requires Clocked(t, run) && run != []
    ensures var s0 := Initial(maxDuration, t);
            Waiting(After(s0, dropIdle, run), Inserted(s0, dropIdle, run), Last(run).now, Last(run).after)
  {
    var s0 := Initial(maxDuration, t);
    var s := After(s0, dropIdle, Front(run));
    if Front(run) != [] {
      RowsWait(maxDuration, t, dropIdle, Front(run));
    }
    FewUncommitted(maxDuration, t, dropIdle, Front(run));
    TakeDurable(s, dropIdle, Last(run));
    TakeWaits(s, Inserted(s0, dropIdle, Front(run)), dropIdle, Last(run), EndOf(t, Front(run)));
    RestKeepsData(Take(s, dropIdle, Last(run)), Last(run));
    RestWaits(Take(s, dropIdle, Last(run)), Inserted(s0, dropIdle, run), Last(run));
  }

  /** At every loop end no uncommitted row is two seconds old. */
  lemma {:induction false} NoRowWaitsLong(maxDuration: int, t: real, dropIdle: bool, run: seq<Pass>, j: nat)
    requires Clocked(t, run) && run != []
    requires After(Initial(maxDuration, t), dropIdle, run).committed <= j < |After(Initial(maxDuration, t), dropIdle, run).rows|
    ensures Last(run).now - Inserted(Initial(maxDuration, t), dropIdle, run)[j] < 2.0
  {
    RowsWait(maxDuration, t, dropIdle, run);
  }
}
