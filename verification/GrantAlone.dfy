/** What one transaction does when nobody disturbs it: the interleaved machine, run by a single thread,
    reaches the table that the session's own loops compute. */
module GrantAlone {
  import opened Wrappers
  import opened Lifecycle
  import opened Heartbeat
  import Decisions
  import opened GrantProtocol
  import GrantOps

  /** The tables with one open transaction. */
  function One(s: State, t: Thread): (r: State) {
    s.(threads := map[0 := t])
  }

  function Opened(op: Op, iap: bool, keyed: bool): (t: Thread) {
    Thread(op, iap, keyed, map[], StartPhase(op))
  }

  /** The transaction with all locks but those of rows. */
  function Armed(op: Op): (t: Thread) {
    Opened(op, NeedsIap(op), CbsdOf(op).Some?)
  }

  lemma OneStep(s: State, l: Label, end: State)
    requires Enabled(s, l) && Next(s, l) == end
    ensures RunsTo(s, [l], end)
  {
    assert [l][1..] == [];
    assert Legal(end, []);
  }

  lemma Opens(s: State, op: Op)
    requires s.threads == map[] && (op.GrantOp? ==> Admissible(op.plan, s.pals))
    ensures RunsTo(s, [Begin(0, op)], One(s, Opened(op, false, false)))
  {
    OneStep(s, Begin(0, op), One(s, Opened(op, false, false)));
  }

  lemma TakesIap(s: State, op: Op)
    requires NeedsIap(op)
    ensures RunsTo(One(s, Opened(op, false, false)), [TakeIap(0)], One(s, Opened(op, true, false)))
  {
    OneStep(One(s, Opened(op, false, false)), TakeIap(0), One(s, Opened(op, true, false)));
  }

  lemma TakesCbsd(s: State, op: Op)
    requires CbsdOf(op).Some?
    ensures RunsTo(One(s, Opened(op, NeedsIap(op), false)), [TakeCbsd(0)], One(s, Opened(op, NeedsIap(op), true)))
  {
    OneStep(One(s, Opened(op, NeedsIap(op), false)), TakeCbsd(0), One(s, Opened(op, NeedsIap(op), true)));
  }

  lemma Arms(s: State, op: Op) returns (run: seq<Label>)
    requires s.threads == map[] && (op.GrantOp? ==> Admissible(op.plan, s.pals))
    ensures RunsTo(s, run, One(s, Armed(op)))
  {
    Opens(s, op);
    run := [Begin(0, op)];
    if NeedsIap(op) {
      TakesIap(s, op);
      run := Join(s, run, One(s, Opened(op, false, false)), [TakeIap(0)], One(s, Opened(op, true, false)));
    }
    if CbsdOf(op).Some? {
      TakesCbsd(s, op);
      run := Join(s, run, One(s, Opened(op, NeedsIap(op), false)), [TakeCbsd(0)], One(s, Opened(op, NeedsIap(op), true)));
    }
  }

  lemma Locks(s: State, t: Thread, pk: int)
    requires Ready(t) && pk in s.grants && pk !in t.local && Wants(t, pk, s.grants[pk].row)
    ensures RunsTo(One(s, t), [LockRow(0, pk)], One(s, t.(local := t.local[pk := s.grants[pk]])))
  {
    OneStep(One(s, t), LockRow(0, pk), One(s, t.(local := t.local[pk := s.grants[pk]])));
  }

  lemma Works(s: State, t: Thread, pk: int)
    requires CanWork(One(s, t), 0, pk)
    ensures RunsTo(One(s, t), [Work(0, pk)], One(s, Worked(One(s, t), 0, pk)))
  {
    OneStep(One(s, t), Work(0, pk), One(s, Worked(One(s, t), 0, pk)));
  }

  lemma Finishes(s: State, t: Thread)
    requires CanFinish(One(s, t), 0)
    ensures RunsTo(One(s, t), [Finish(0)], One(s, t.(phase := Complete)))
  {
    OneStep(One(s, t), Finish(0), One(s, t.(phase := Complete)));
  }

  lemma Commits(s: State, t: Thread)
    requires (t.op.CpasOp? ==> t.phase == Complete) && !MidHeartbeat(t)
    ensures RunsTo(One(s, t), [Commit(0)], Committed(One(s, t), 0))
  {
    OneStep(One(s, t), Commit(0), Committed(One(s, t), 0));
  }

  // ------------------------------------------------------------- relinquishment

  function TableOf(s: State): (t: GrantOps.Table) {
    GrantOps.Table(s.cbsds, s.grants, s.nextPk)
  }

  function Relinquishing(c: string, pk: int, e: Entry, phase: Phase): (t: Thread) {
    Thread(RelinquishOp(c, pk), false, true, map[pk := e], phase)
  }

  lemma RelinquishWorks(s: State, c: string, pk: int, e: Entry)
    ensures var row := if e.row.terminated then e.row else AfterEvent(e.row, Relinquish, IDS, s.now);
            RunsTo(One(s, Relinquishing(c, pk, e, Started)), [Work(0, pk)], One(s, Relinquishing(c, pk, e.(row := row), Complete)))
  {
    var row := if e.row.terminated then e.row else AfterEvent(e.row, Relinquish, IDS, s.now);
    assert map[pk := e][pk := e.(row := row)] == map[pk := e.(row := row)];
    Works(s, Relinquishing(c, pk, e, Started), pk);
  }

  lemma RelinquishedExactly(s: State, c: string, pk: int)
    requires c in s.cbsds && pk in s.grants && s.grants[pk].row.cbsd == c
    ensures var e := s.grants[pk];
            var row := if e.row.terminated then e.row else AfterEvent(e.row, Relinquish, IDS, s.now);
            GrantOps.Relinquished(TableOf(s), c, pk, s.now).0.grants == s.grants + map[pk := e.(row := row)]
  {
    assert s.grants[pk := s.grants[pk]] == s.grants;
  }

  /** A relinquishment alone leaves the table that the session's method leaves. */
  lemma RelinquishAlone(s: State, c: string, pk: int) returns (run: seq<Label>)
    requires s.threads == map[] && c in s.cbsds && pk in s.grants && s.grants[pk].row.cbsd == c
    ensures Legal(s, run) && After(s, run) == s.(grants := GrantOps.Relinquished(TableOf(s), c, pk, s.now).0.grants)
  {
    var op, e := RelinquishOp(c, pk), s.grants[pk];
    var row := if e.row.terminated then e.row else AfterEvent(e.row, Relinquish, IDS, s.now);
    var held, done := Relinquishing(c, pk, e, Started), Relinquishing(c, pk, e.(row := row), Complete);
    run := Arms(s, op);
    Locks(s, Armed(op), pk);
    run := Join(s, run, One(s, Armed(op)), [LockRow(0, pk)], One(s, held));
    RelinquishWorks(s, c, pk, e);
    run := Join(s, run, One(s, held), [Work(0, pk)], One(s, done));
    Commits(s, done);
    run := Join(s, run, One(s, done), [Commit(0)], Committed(One(s, done), 0));
    RelinquishedExactly(s, c, pk);
  }

  // ------------------------------------------------------------------ grants

  function Requesting(plan: Plan, phase: Phase): (t: Thread) {
    Thread(GrantOp(plan), true, true, map[], phase)
  }

  /** A grant request alone, when it is granted, leaves the table that the session's batch of one leaves. */
  lemma GrantAlone(s: State, plan: Plan, item: GrantOps.Item) returns (run: seq<Label>)
    requires s.threads == map[] && Admissible(plan, s.pals) && plan.earlier == []
    requires item == GrantOps.Item(plan, false, false, s.now, s.now)
    requires GrantOps.GrantAnswer(TableOf(s), item, map[]) == SUCCESS
    ensures var t := GrantOps.Stepped(GrantOps.Progress(TableOf(s), map[], []), item).table;
            Legal(s, run) && After(s, run) == s.(grants := t.grants, nextPk := t.nextPk)
  {
    var expire := GrantExpireTime(s.now, plan.cap);
    var entry := NewEntry(plan, expire, s.now);
    assert GrantOps.WithPending(item, map[]) == plan;
    run := Arms(s, GrantOp(plan));
    Works(s, Requesting(plan, Started), 0);
    run := Join(s, run, One(s, Requesting(plan, Started)), [Work(0, 0)], One(s, Requesting(plan, Checked)));
    Works(s, Requesting(plan, Checked), 0);
    run := Join(s, run, One(s, Requesting(plan, Checked)), [Work(0, 0)], One(s, Requesting(plan, Timed(expire))));
    Works(s, Requesting(plan, Timed(expire)), 0);
    run := Join(s, run, One(s, Requesting(plan, Timed(expire))), [Work(0, 0)], One(s, Requesting(plan, Inserting(entry))));
    Commits(s, Requesting(plan, Inserting(entry)));
    run := Join(s, run, One(s, Requesting(plan, Inserting(entry))), [Commit(0)], Committed(One(s, Requesting(plan, Inserting(entry))), 0));
    assert s.grants + map[] == s.grants;
  }

  // --------------------------------------------------------------- heartbeats

  function Beating1(c: string, pk: int, req: Request, e: Entry, stage: Stage): (t: Thread) {
    Thread(HeartbeatOp(c, pk, req), false, true, map[pk := e], Beating(stage))
  }

  function Still(now: int): (at: Clock) {
    Clock(now, now, now, now, now, now, now, now)
  }

  /** The stages of a heartbeat, one step each. */
  lemma {:induction false} StagesAlone(s: State, c: string, pk: int, req: Request, e: Entry, stage: Stage) returns (run: seq<Label>, end: Entry)
    ensures var (row, code) := Handled(e.row, stage, req, s.pals, Still(s.now));
            RunsTo(One(s, Beating1(c, pk, req, e, stage)), run, One(s, Beating1(c, pk, req, end, Finished(code)))) && end.row == row
    decreases Rank(stage)
  {
    if stage.Finished? {
      run, end := [], e;
    } else {
      var next := StagedEntry(e, stage, req, s.pals, s.now);
      var then1 := Advance(e.row, stage, req, s.pals, s.now).1;
      Works(s, Beating1(c, pk, req, e, stage), pk);
      assert map[pk := e][pk := next] == map[pk := next];
      run, end := StagesAlone(s, c, pk, req, next, then1);
      var code := Handled(e.row, stage, req, s.pals, Still(s.now)).1;
      run := Join(One(s, Beating1(c, pk, req, e, stage)), [Work(0, pk)], One(s, Beating1(c, pk, req, next, then1)), run,
                  One(s, Beating1(c, pk, req, end, Finished(code))));
    }
  }

  /** A heartbeat alone leaves its row as the session's handler leaves it, and all else as it was. */
  lemma HeartbeatAlone(s: State, c: string, pk: int, req: Request) returns (run: seq<Label>)
    requires s.threads == map[] && pk in s.grants && s.grants[pk].row.cbsd == c
    ensures Legal(s, run) && pk in After(s, run).grants
    ensures After(s, run) == s.(grants := s.grants[pk := After(s, run).grants[pk]])
    ensures After(s, run).grants[pk].row == Handled(s.grants[pk].row, Gate, req, s.pals, Still(s.now)).0
  {
    var op, e := HeartbeatOp(c, pk, req), s.grants[pk];
    run := Arms(s, op);
    Locks(s, Armed(op), pk);
    run := Join(s, run, One(s, Armed(op)), [LockRow(0, pk)], One(s, Beating1(c, pk, req, e, Gate)));
    var code := Handled(e.row, Gate, req, s.pals, Still(s.now)).1;
    var stages, end := StagesAlone(s, c, pk, req, e, Gate);
    var done := Beating1(c, pk, req, end, Finished(code));
    run := Join(s, run, One(s, Beating1(c, pk, req, e, Gate)), stages, One(s, done));
    Commits(s, done);
    run := Join(s, run, One(s, done), [Commit(0)], Committed(One(s, done), 0));
    assert s.grants + map[pk := end] == s.grants[pk := end];
  }

  // --------------------------------------------------------- daily activities

  function RowsOf(grants: Grants): (rows: Decisions.Table) {
    map pk | pk in grants :: grants[pk].row
  }

  function Deciding(ds: seq<Decisions.Decision>, local: Grants, i: nat): (t: Thread) {
    Thread(CpasOp(ds), true, false, local, Applying(i))
  }

  lemma DecidesLocked(s: State, ds: seq<Decisions.Decision>, held: Grants, i: nat, pk: int)
    requires i < |ds| && ds[i].pk == Some(pk) && pk in held
    ensures RunsTo(One(s, Deciding(ds, held, i)), [Work(0, pk)],
                   One(s, Deciding(ds, held[pk := held[pk].(row := Decisions.Decided(held[pk].row, ds[i], s.now))], i + 1)))
  {
    Works(s, Deciding(ds, held, i), pk);
  }

  lemma DecideOne(s: State, ds: seq<Decisions.Decision>, local: Grants, i: nat) returns (run: seq<Label>, after: Grants)
    requires i < |ds| && local.Keys <= s.grants.Keys
    ensures RunsTo(One(s, Deciding(ds, local, i)), run, One(s, Deciding(ds, after, i + 1))) && after.Keys <= s.grants.Keys
    ensures var rows := RowsOf(s.grants + local);
            RowsOf(s.grants + after) ==
            if ds[i].pk.Some? && ds[i].pk.value in rows
            then rows[ds[i].pk.value := Decisions.Decided(rows[ds[i].pk.value], ds[i], s.now)] else rows
  {
    if ds[i].pk.Some? && ds[i].pk.value in s.grants {
      var pk := ds[i].pk.value;
      var held := if pk in local then local else local[pk := s.grants[pk]];
      run := [];
      if pk !in local {
        Locks(s, Deciding(ds, local, i), pk);
        run := [LockRow(0, pk)];
      }
      after := held[pk := held[pk].(row := Decisions.Decided(held[pk].row, ds[i], s.now))];
      DecidesLocked(s, ds, held, i, pk);
      run := Join(One(s, Deciding(ds, local, i)), run, One(s, Deciding(ds, held, i)), [Work(0, pk)], One(s, Deciding(ds, after, i + 1)));
    } else {
      var pk := if ds[i].pk.Some? then ds[i].pk.value else 0;
      Works(s, Deciding(ds, local, i), pk);
      run, after := [Work(0, pk)], local;
    }
  }

  lemma {:induction false} DecideAlone(s: State, ds: seq<Decisions.Decision>, times: seq<int>, n: nat) returns (run: seq<Label>, local: Grants)
    requires n <= |ds| == |times| && forall i :: 0 <= i < |times| ==> times[i] == s.now
    ensures RunsTo(One(s, Deciding(ds, map[], 0)), run, One(s, Deciding(ds, local, n))) && local.Keys <= s.grants.Keys
    ensures RowsOf(s.grants + local) == Decisions.Applied(RowsOf(s.grants), ds[..n], times[..n])
  {
    if n == 0 {
      run, local := [], map[];
      assert s.grants + map[] == s.grants;
    } else {
      var before, held := DecideAlone(s, ds, times, n - 1);
      var more;
      more, local := DecideOne(s, ds, held, n - 1);
      run := Join(One(s, Deciding(ds, map[], 0)), before, One(s, Deciding(ds, held, n - 1)), more, One(s, Deciding(ds, local, n)));
      assert ds[..n] == ds[..n - 1] + [ds[n - 1]] && times[..n] == times[..n - 1] + [times[n - 1]];
      Decisions.AppliedStep(RowsOf(s.grants), ds[..n - 1], times[..n - 1], ds[n - 1], times[n - 1]);
    }
  }

  /** The daily activities alone leave the rows that applying the list of decisions leaves. */
  lemma CpasAlone(s: State, ds: seq<Decisions.Decision>, times: seq<int>) returns (run: seq<Label>)
    requires s.threads == map[] && |times| == |ds| && forall i :: 0 <= i < |times| ==> times[i] == s.now
    ensures Legal(s, run) && After(s, run) == s.(grants := After(s, run).grants)
    ensures RowsOf(After(s, run).grants) == Decisions.Applied(RowsOf(s.grants), ds, times)
  {
    run := Arms(s, CpasOp(ds));
    var decide, local := DecideAlone(s, ds, times, |ds|);
    assert ds[..|ds|] == ds && times[..|ds|] == times;
    var decided, done := Deciding(ds, local, |ds|), Deciding(ds, local, |ds|).(phase := Complete);
    run := Join(s, run, One(s, Deciding(ds, map[], 0)), decide, One(s, decided));
    Finishes(s, decided);
    run := Join(s, run, One(s, decided), [Finish(0)], One(s, done));
    Commits(s, done);
    run := Join(s, run, One(s, done), [Commit(0)], Committed(One(s, done), 0));
  }

  // ----------------------------------------------- registration and deregistration

  function EndingAll(op: Op, local: Grants): (t: Thread) {
    Thread(op, false, true, local, Started)
  }

  predicate Ends(op: Op, c: string) {
    op == RegisterOp(c) || op == DeregisterOp(c)
  }

  /** Rows as every reachable state has them. */
  ghost predicate WellKept(grants: Grants) {
    forall pk :: pk in grants ==> FlagsAgree(grants[pk].row) && grants[pk].row.raw.Some? && grants[pk].row.raw != Some(REQUESTED)
  }

  lemma EndsDead(e: Entry, now: int)
    requires FlagsAgree(e.row) && e.row.raw.Some? && e.row.raw != Some(REQUESTED)
    ensures AfterEvent(e.row, Terminate, IDS, now) == GrantOps.TerminatedEntry(e, now).row
    ensures Dead(GrantOps.TerminatedEntry(e, now).row, now)
  {
    GrantOps.TerminatedAllExactly(map[0 := e], e.row.cbsd, pk => now, 0);
  }

  lemma EndWorks(s: State, op: Op, c: string, local: Grants, pk: int)
    requires Ends(op, c) && pk in s.grants && pk in local && local[pk] == s.grants[pk] && WellKept(s.grants)
    ensures RunsTo(One(s, EndingAll(op, local)), [Work(0, pk)],
                   One(s, EndingAll(op, local[pk := GrantOps.TerminatedEntry(s.grants[pk], s.now)])))
  {
    EndsDead(s.grants[pk], s.now);
    Works(s, EndingAll(op, local), pk);
  }

  lemma EndOne(s: State, op: Op, c: string, local: Grants, pk: int) returns (run: seq<Label>)
    requires Ends(op, c) && pk in s.grants && s.grants[pk].row.cbsd == c && pk !in local && WellKept(s.grants)
    ensures RunsTo(One(s, EndingAll(op, local)), run, One(s, EndingAll(op, local[pk := GrantOps.TerminatedEntry(s.grants[pk], s.now)])))
  {
    var held := local[pk := s.grants[pk]];
    var done := local[pk := GrantOps.TerminatedEntry(s.grants[pk], s.now)];
    Locks(s, EndingAll(op, local), pk);
    EndWorks(s, op, c, held, pk);
    assert held[pk := GrantOps.TerminatedEntry(s.grants[pk], s.now)] == done;
    run := Join(One(s, EndingAll(op, local)), [LockRow(0, pk)], One(s, EndingAll(op, held)), [Work(0, pk)], One(s, EndingAll(op, done)));
  }

  /** The copies of the rows listed, each ended. */
  function Ended(grants: Grants, rows: seq<int>, now: int): (local: Grants)
    requires forall i :: 0 <= i < |rows| ==> rows[i] in grants
  {
    map pk | pk in rows :: GrantOps.TerminatedEntry(grants[pk], now)
  }

  lemma {:induction false} EndAlone(s: State, op: Op, c: string, rows: seq<int>) returns (run: seq<Label>)
    requires Ends(op, c) && WellKept(s.grants)
    requires forall i :: 0 <= i < |rows| ==> rows[i] in s.grants && s.grants[rows[i]].row.cbsd == c
    requires forall i, j :: 0 <= i < j < |rows| ==> rows[i] != rows[j]
    ensures RunsTo(One(s, EndingAll(op, map[])), run, One(s, EndingAll(op, Ended(s.grants, rows, s.now))))
  {
    if rows == [] {
      run := [];
      assert Ended(s.grants, rows, s.now) == map[];
    } else {
      var front, pk := rows[..|rows| - 1], rows[|rows| - 1];
      var before := EndAlone(s, op, c, front);
      var more := EndOne(s, op, c, Ended(s.grants, front, s.now), pk);
      assert rows == front + [pk];
      assert Ended(s.grants, rows, s.now) == Ended(s.grants, front, s.now)[pk := GrantOps.TerminatedEntry(s.grants[pk], s.now)];
      run := Join(One(s, EndingAll(op, map[])), before, One(s, EndingAll(op, Ended(s.grants, front, s.now))), more,
                  One(s, EndingAll(op, Ended(s.grants, rows, s.now))));
    }
  }

  lemma AllEnded(s: State, op: Op, c: string, rows: seq<int>) returns (run: seq<Label>)
    requires s.threads == map[] && Ends(op, c) && WellKept(s.grants) && (op.DeregisterOp? ==> c in s.cbsds)
    requires GrantOps.Lists(rows, s.grants, c, false) && forall i, j :: 0 <= i < j < |rows| ==> rows[i] != rows[j]
    ensures RunsTo(s, run, Committed(One(s, EndingAll(op, Ended(s.grants, rows, s.now)).(phase := Complete)), 0))
  {
    var local := Ended(s.grants, rows, s.now);
    run := Arms(s, op);
    var more := EndAlone(s, op, c, rows);
    run := Join(s, run, One(s, EndingAll(op, map[])), more, One(s, EndingAll(op, local)));
    forall pk | pk in s.grants && s.grants[pk].row.cbsd == c ensures pk in local && Dead(local[pk].row, s.now) {
      EndsDead(s.grants[pk], s.now);
    }
    Finishes(s, EndingAll(op, local));
    run := Join(s, run, One(s, EndingAll(op, local)), [Finish(0)], One(s, EndingAll(op, local).(phase := Complete)));
    Commits(s, EndingAll(op, local).(phase := Complete));
    run := Join(s, run, One(s, EndingAll(op, local).(phase := Complete)), [Commit(0)],
                Committed(One(s, EndingAll(op, local).(phase := Complete)), 0));
  }

  lemma EndedRows(grants: Grants, c: string, rows: seq<int>, now: int)
    requires GrantOps.Lists(rows, grants, c, false)
    ensures grants + Ended(grants, rows, now) == GrantOps.AllTerminated(grants, c, pk => now)
    ensures grants - Ended(grants, rows, now).Keys == map pk | pk in grants && grants[pk].row.cbsd != c :: grants[pk]
  {
    forall pk | pk in grants ensures pk in rows <==> grants[pk].row.cbsd == c {
    }
  }

  /** A registration alone ends the grants of the CBSD as the session's loop does, and registers it. */
  lemma RegisterAlone(s: State, c: string, rows: seq<int>) returns (run: seq<Label>)
    requires s.threads == map[] && WellKept(s.grants)
    requires GrantOps.Lists(rows, s.grants, c, false) && forall i, j :: 0 <= i < j < |rows| ==> rows[i] != rows[j]
    ensures Legal(s, run)
    ensures After(s, run) == s.(grants := GrantOps.AllTerminated(s.grants, c, pk => s.now), cbsds := s.cbsds + {c})
  {
    run := AllEnded(s, RegisterOp(c), c, rows);
    EndedRows(s.grants, c, rows, s.now);
  }

  /** A deregistration alone leaves the table that the session's method leaves. */
  lemma DeregisterAlone(s: State, c: string, rows: seq<int>) returns (run: seq<Label>)
    requires s.threads == map[] && WellKept(s.grants) && c in s.cbsds
    requires GrantOps.Lists(rows, s.grants, c, false) && forall i, j :: 0 <= i < j < |rows| ==> rows[i] != rows[j]
    ensures var t := GrantOps.Deregistered(TableOf(s), c);
            Legal(s, run) && After(s, run) == s.(grants := t.grants, cbsds := t.cbsds)
  {
    run := AllEnded(s, DeregisterOp(c), c, rows);
    EndedRows(s.grants, c, rows, s.now);
  }
}
