/** One run of the daily activities when nobody disturbs it: the protocol's steps reach the tables that
    the session's critical section leaves. */
module CpasAlone {
  import opened Wrappers
  import opened Decisions
  import opened Injection
  import opened CpasPipeline
  import opened CpasSession

  /** The tables, with run 0 on its way. */
  function At(db: Db, run: Run, keyOf: KeyFn): (s: State) {
    State(db, map[0 := run], keyOf)
  }

  lemma RunStepAlone(db: Db, run: Run, keyOf: KeyFn, l: Label)
    requires RunEnabled(At(db, run, keyOf), l) && RunOf(l) == Some(0)
    ensures Enabled(At(db, run, keyOf), l)
    ensures Next(At(db, run, keyOf), l) == At(RunStep(db, run, l).0, RunStep(db, run, l).1, keyOf)
  {
    assert map[0 := run][0 := RunStep(db, run, l).1] == map[0 := RunStep(db, run, l).1];
  }

  lemma Goes(s: State, labels: seq<Label>, db: Db, run: Run, keyOf: KeyFn, l: Label, db': Db, run': Run) returns (longer: seq<Label>)
    requires RunsTo(s, labels, At(db, run, keyOf)) && RunEnabled(At(db, run, keyOf), l) && RunOf(l) == Some(0)
    requires RunStep(db, run, l) == (db', run')
    ensures RunsTo(s, longer, At(db', run', keyOf))
  {
    RunStepAlone(db, run, keyOf, l);
    longer := Then(s, labels, At(db, run, keyOf), l, At(db', run', keyOf));
  }

  function FrozenRun(db: Db): (run: Run) {
    START.(phase := Frozen, frozen := db.store, active := ActiveGrants(db), generation := FingerprintOf(db), atCounters := db.store)
  }

  /** Inside the critical section, with this much pending. */
  function Inside(db: Db, phase: Phase, tx: Tx): (run: Run) {
    FrozenRun(db).(phase := phase, iap := true, tx := tx)
  }

  const DECIDED: Tx := EMPTY.(decided := true)

  lemma FreezesAndEnters(db: Db, keyOf: KeyFn, ds: seq<Decision>) returns (labels: seq<Label>)
    requires OnlyActive(ds, ActiveGrants(db))
    ensures RunsTo(State(db, map[], keyOf), labels, At(db, Inside(db, Deciding(ds), DECIDED), keyOf))
  {
    var s := State(db, map[], keyOf);
    var read := START.(phase := RowsFrozen, frozen := db.store, active := ActiveGrants(db));
    labels := Then(s, [], s, NewRun(0), At(db, START, keyOf));
    labels := Goes(s, labels, db, START, keyOf, FreezeRows(0), db, read);
    labels := Goes(s, labels, db, read, keyOf, FreezeCounters(0), db, FrozenRun(db));
    labels := Goes(s, labels, db, FrozenRun(db), keyOf, Enter(0), db, Inside(db, Locked, EMPTY));
    labels := Goes(s, labels, db, Inside(db, Locked, EMPTY), keyOf, Check(0, ds), db, Inside(db, Deciding(ds), DECIDED));
  }

  lemma {:induction false} DecidedFirst(db: Db, tx: Tx, ds: seq<Decision>, times: seq<int>)
    requires |times| == |ds| > 0
    ensures DecidedTx(db, tx, ds, times) == DecidedTx(db, DecisionApplied(db, tx, ds[0], times[0]), ds[1..], times[1..])
  {
    if |ds| > 1 {
      var n := |ds| - 1;
      DecidedFirst(db, tx, ds[..n], times[..n]);
      assert ds[..n][1..] == ds[1..][..n - 1] && times[..n][1..] == times[1..][..n - 1];
    } else {
      assert ds[..0] == [] && times[..0] == [] && ds[1..] == [] && times[1..] == [];
    }
  }

  lemma {:induction false} AppliesAlone(s: State, labels: seq<Label>, db: Db, keyOf: KeyFn, tx: Tx, ds: seq<Decision>, times: seq<int>)
    returns (longer: seq<Label>)
    requires |times| == |ds| && RunsTo(s, labels, At(db, Inside(db, Deciding(ds), tx), keyOf))
    ensures RunsTo(s, longer, At(db, Inside(db, Deciding([]), DecidedTx(db, tx, ds, times)), keyOf))
    decreases |ds|
  {
    if ds == [] {
      longer := labels;
    } else {
      var after := DecisionApplied(db, tx, ds[0], times[0]);
      longer := Goes(s, labels, db, Inside(db, Deciding(ds), tx), keyOf, Apply(0, times[0]), db, Inside(db, Deciding(ds[1..]), after));
      longer := AppliesAlone(s, longer, db, keyOf, after, ds[1..], times[1..]);
      DecidedFirst(db, tx, ds, times);
    }
  }

  /** From the snapshot to the dump in the open transaction. */
  lemma DecidesAlone(db: Db, keyOf: KeyFn, ds: seq<Decision>, times: seq<int>) returns (labels: seq<Label>)
    requires |times| == |ds| && OnlyActive(ds, ActiveGrants(db))
    ensures RunsTo(State(db, map[], keyOf), labels, At(db, Inside(db, Published, DumpTx(db, 0, ds, times)), keyOf))
  {
    var s := State(db, map[], keyOf);
    var tx := DecidedTx(db, DECIDED, ds, times);
    var listing := Listing(View(db, tx));
    labels := FreezesAndEnters(db, keyOf, ds);
    labels := AppliesAlone(s, labels, db, keyOf, DECIDED, ds, times);
    labels := Goes(s, labels, db, Inside(db, Deciding([]), tx), keyOf, Build(0), db, Inside(db, Built(listing), tx));
    labels := Goes(s, labels, db, Inside(db, Built(listing), tx), keyOf, Publish(0), db, Inside(db, Published, DumpTx(db, 0, ds, times)));
  }

  // --------------------------------------------------------------- the last commits

  /** The run has only its stamp and audit left to write. */
  lemma StampsAlone(s: State, labels: seq<Label>, db: Db, run: Run, keyOf: KeyFn) returns (longer: seq<Label>, end: Run)
    requires RunsTo(s, labels, At(db, run, keyOf)) && run.phase == Marked
    ensures var tx := run.tx.(reeval := Some(false), stamp := Some(Stamp(0, run.generation)), audits := run.tx.audits + [PipelineCompleted(0)]);
            RunsTo(s, longer, At(View(db, tx), end, keyOf)) && end.phase == Done
  {
    var cleared := run.(phase := Cleared, tx := run.tx.(reeval := Some(false)));
    var stamped := cleared.(phase := Stamped, tx := cleared.tx.(stamp := Some(Stamp(0, run.generation))));
    longer := Goes(s, labels, db, run, keyOf, Clear(0), db, cleared);
    longer := Goes(s, longer, db, cleared, keyOf, Record(0), db, stamped);
    end := RunStep(db, stamped, Finish(0)).1;
    longer := Goes(s, longer, db, stamped, keyOf, Finish(0), RunStep(db, stamped, Finish(0)).0, end);
  }

  lemma UnmarkedTables(db: Db, ds: seq<Decision>, times: seq<int>, today: int, inWindow: bool)
    requires |times| == |ds| && !(db.scheduleOn && inWindow)
    ensures var tx := DumpTx(db, 0, ds, times);
            tx.audits == []
            && View(db, tx.(reeval := Some(false), stamp := Some(Stamp(0, FingerprintOf(db))), audits := tx.audits + [PipelineCompleted(0)]))
               == CompletedDb(db, 0, FingerprintOf(db), ds, times, today, inWindow)
  {
    TxReach(db, DECIDED, ds, times);
    assert [] + [PipelineCompleted(0)] == [PipelineCompleted(0)];
    assert db.audits + [] == db.audits;
  }

  lemma MarkedTables(db: Db, ds: seq<Decision>, times: seq<int>, today: int)
    requires |times| == |ds| && db.scheduleOn
    ensures var tx := DumpTx(db, 0, ds, times);
            var first := View(db, tx.(lastSuccess := Some(today)));
            var second := View(first, EMPTY.(audits := [] + [ScheduledEndOk(0)]));
            View(second, EMPTY.(reeval := Some(false), stamp := Some(Stamp(0, FingerprintOf(db))), audits := [] + [PipelineCompleted(0)]))
            == CompletedDb(db, 0, FingerprintOf(db), ds, times, today, true)
  {
    TxReach(db, DECIDED, ds, times);
    var grants := View(db, DumpTx(db, 0, ds, times)).grants;
    assert grants + map[] == grants;
    assert [] + [PipelineCompleted(0)] == [PipelineCompleted(0)] && [] + [ScheduledEndOk(0)] == [ScheduledEndOk(0)];
    assert db.audits + [] == db.audits;
  }

  /** A run alone ends with the tables of a completed critical section, whether the schedule's
      bookkeeping commits in between or not. */
  lemma PipelineAlone(db: Db, keyOf: KeyFn, ds: seq<Decision>, times: seq<int>, today: int, inWindow: bool) returns (labels: seq<Label>)
    requires |times| == |ds| && OnlyActive(ds, ActiveGrants(db))
    ensures Legal(State(db, map[], keyOf), labels)
    ensures After(State(db, map[], keyOf), labels).db == CompletedDb(db, 0, FingerprintOf(db), ds, times, today, inWindow)
  {
    var s := State(db, map[], keyOf);
    var dumped := Inside(db, Published, DumpTx(db, 0, ds, times));
    labels := DecidesAlone(db, keyOf, ds, times);
    var db1, run1 := RunStep(db, dumped, Mark(0, today, inWindow)).0, RunStep(db, dumped, Mark(0, today, inWindow)).1;
    labels := Goes(s, labels, db, dumped, keyOf, Mark(0, today, inWindow), db1, run1);
    var end;
    if db.scheduleOn && inWindow {
      var db2, run2 := RunStep(db1, run1, MarkAudit(0)).0, RunStep(db1, run1, MarkAudit(0)).1;
      labels := Goes(s, labels, db1, run1, keyOf, MarkAudit(0), db2, run2);
      labels, end := StampsAlone(s, labels, db2, run2, keyOf);
      MarkedTables(db, ds, times, today);
    } else {
      labels, end := StampsAlone(s, labels, db1, run1, keyOf);
      UnmarkedTables(db, ds, times, today, inWindow);
    }
  }
}
