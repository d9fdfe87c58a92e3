/** Concrete runs of the daily activities on an armed schedule.  A zone is injected between the two
    reads of the freeze, and the drift check passes although the zone was not frozen; a power reduction
    becomes durable together with a dump that still shows the old power; a crash then loses the stamp,
    or a second run overtakes the first before its stamp. */
module CpasWitness {
  import opened Wrappers
  import opened Lifecycle
  import opened Decisions
  import opened Injection
  import opened CpasPipeline
  import Spectrum
  import SpectrumInquiry
  import GrantProtocol

  // ------------------------------------------------------- one grant, one run

  const RANGE: Spectrum.Range := Spectrum.Range(Spectrum.CBRS_LOW_HZ, Spectrum.CBRS_LOW_HZ + Spectrum.CHANNEL_HZ)
  const PLAN: GrantProtocol.Plan := GrantProtocol.Plan("g", "c", RANGE, SpectrumInquiry.GAA, None, None, 20.0, false, [])

  /** The row as the grant request has made it. */
  const ROW: Row := GrantProtocol.NewEntry(PLAN, 900, 0).row

  const REDUCE: Decision := Decision(Some(0), "g", ReducePower, Some(10.0))
  const REDUCED: Row := ROW.(maxEirp := Some(10.0))
  const LISTING: map<int, GrantRecord> := map[0 := RecordOf(ROW)]

  const BEFORE: Store := Store([], map[], map[])
  const ZONED: Store := Store([InjRow(ZONE, "z")], map[], map[ZONE := 1, SCHEMA_KEY := 1])
  const DB: Db := Db(map[0 := ROW], {"c"}, BEFORE, map[], None, None, false, true, None, [])

  function At(db: Db, run: Run, keyOf: KeyFn): (s: State) { State(db, map[0 := run], keyOf) }

  const READ: Run := START.(phase := RowsFrozen, frozen := BEFORE, active := {0})
  const FROZEN: Run := READ.(phase := Frozen, generation := Fingerprint(map[], ZONED.counters), atCounters := ZONED)
  const LOCKED: Run := FROZEN.(phase := Locked, iap := true)
  const DECIDING: Run := LOCKED.(phase := Deciding([REDUCE]), tx := EMPTY.(decided := true))
  const APPLIED: Run := LOCKED.(phase := Deciding([]), tx := EMPTY.(decided := true, grants := map[0 := REDUCED]))
  const BUILT: Run := APPLIED.(phase := Built(LISTING))
  const READY: Run := APPLIED.(phase := Published, tx := APPLIED.tx.(published := Some(Dump(Some(0), LISTING))))

  lemma GrantIsListed()
    ensures Listing(DB) == LISTING && ActiveGrants(DB) == {0}
  {
    assert Listing(DB).Keys == {0};
  }

  lemma FreezeSteps(keyOf: KeyFn)
    ensures Enabled(State(DB, map[], keyOf), NewRun(0)) && Next(State(DB, map[], keyOf), NewRun(0)) == At(DB, START, keyOf)
    ensures Enabled(At(DB, START, keyOf), FreezeRows(0)) && Next(At(DB, START, keyOf), FreezeRows(0)) == At(DB, READ, keyOf)
  {
    GrantIsListed();
  }

  lemma GapSteps(keyOf: KeyFn)
    ensures Enabled(At(DB, READ, keyOf), Inject(ZONE, "z"))
    ensures Next(At(DB, READ, keyOf), Inject(ZONE, "z")) == At(DB.(store := ZONED), READ, keyOf)
    ensures Enabled(At(DB.(store := ZONED), READ, keyOf), FreezeCounters(0))
    ensures Next(At(DB.(store := ZONED), READ, keyOf), FreezeCounters(0)) == At(DB.(store := ZONED), FROZEN, keyOf)
  {
    assert Injected(keyOf, BEFORE, ZONE, "z") == ZONED;
  }

  lemma FreezeWithGap(keyOf: KeyFn) returns (labels: seq<Label>)
    ensures RunsTo(State(DB, map[], keyOf), labels, At(DB.(store := ZONED), FROZEN, keyOf))
  {
    var s := State(DB, map[], keyOf);
    FreezeSteps(keyOf);
    GapSteps(keyOf);
    labels := Then(s, [], s, NewRun(0), At(DB, START, keyOf));
    labels := Then(s, labels, At(DB, START, keyOf), FreezeRows(0), At(DB, READ, keyOf));
    labels := Then(s, labels, At(DB, READ, keyOf), Inject(ZONE, "z"), At(DB.(store := ZONED), READ, keyOf));
    labels := Then(s, labels, At(DB.(store := ZONED), READ, keyOf), FreezeCounters(0), At(DB.(store := ZONED), FROZEN, keyOf));
  }

  lemma EnterSteps(keyOf: KeyFn)
    ensures var db := DB.(store := ZONED);
            && Enabled(At(db, FROZEN, keyOf), Enter(0)) && Next(At(db, FROZEN, keyOf), Enter(0)) == At(db, LOCKED, keyOf)
            && Enabled(At(db, LOCKED, keyOf), Check(0, [REDUCE]))
            && Next(At(db, LOCKED, keyOf), Check(0, [REDUCE])) == At(db, DECIDING, keyOf)
  {
  }

  lemma ApplyStep(keyOf: KeyFn)
    ensures var db := DB.(store := ZONED);
            Enabled(At(db, DECIDING, keyOf), Apply(0, 0)) && Next(At(db, DECIDING, keyOf), Apply(0, 0)) == At(db, APPLIED, keyOf)
  {
    var db := DB.(store := ZONED);
    assert Decided(ROW, REDUCE, 0) == REDUCED;
    assert View(db, DECIDING.tx).grants == map[0 := ROW];
    assert map[][0 := REDUCED] == map[0 := REDUCED];
    assert [REDUCE][1..] == [];
    assert DecisionApplied(db, DECIDING.tx, REDUCE, 0) == APPLIED.tx;
  }

  lemma BuildStep(keyOf: KeyFn)
    ensures Enabled(At(DB.(store := ZONED), APPLIED, keyOf), Build(0)) && Next(At(DB.(store := ZONED), APPLIED, keyOf), Build(0)) == At(DB.(store := ZONED), BUILT, keyOf)
  {
    var db := DB.(store := ZONED);
    assert View(db, APPLIED.tx).grants == map[0 := REDUCED];
    assert Listing(View(db, APPLIED.tx)).Keys == {0};
    assert Listing(View(db, APPLIED.tx)) == LISTING;
  }

  lemma PublishStep(keyOf: KeyFn)
    ensures Enabled(At(DB.(store := ZONED), BUILT, keyOf), Publish(0)) && Next(At(DB.(store := ZONED), BUILT, keyOf), Publish(0)) == At(DB.(store := ZONED), READY, keyOf)
  {
  }

  lemma DecideAndPublish(keyOf: KeyFn) returns (labels: seq<Label>)
    ensures RunsTo(State(DB, map[], keyOf), labels, At(DB.(store := ZONED), READY, keyOf))
  {
    var s := State(DB, map[], keyOf);
    var db := DB.(store := ZONED);
    EnterSteps(keyOf);
    ApplyStep(keyOf);
    BuildStep(keyOf);
    PublishStep(keyOf);
    labels := FreezeWithGap(keyOf);
    labels := Then(s, labels, At(db, FROZEN, keyOf), Enter(0), At(db, LOCKED, keyOf));
    labels := Then(s, labels, At(db, LOCKED, keyOf), Check(0, [REDUCE]), At(db, DECIDING, keyOf));
    labels := Then(s, labels, At(db, DECIDING, keyOf), Apply(0, 0), At(db, APPLIED, keyOf));
    labels := Then(s, labels, At(db, APPLIED, keyOf), Build(0), At(db, BUILT, keyOf));
    labels := Then(s, labels, At(db, BUILT, keyOf), Publish(0), At(db, READY, keyOf));
  }

  /** The drift check passes and the deciding commit finds a zone that was never frozen. */
  lemma DriftSlipsThroughFreeze(keyOf: KeyFn) returns (labels: seq<Label>, s: State, l: Label)
    ensures Reached(s, DB, keyOf, labels) && Enabled(s, l) && Decides(s, l, 0)
    ensures !SameProtected(s.runs[0].frozen, Next(s, l).db.store)
  {
    labels := DecideAndPublish(keyOf);
    s := At(DB.(store := ZONED), READY, keyOf);
    l := Mark(0, 0, true);
    assert Next(s, l).db.store == ZONED;
    OneZoneRow();
  }

  lemma OneZoneRow()
    ensures RowsOf([InjRow(ZONE, "z")], ZONE) == ["z"] && RowsOf([], ZONE) == []
  {
    assert [InjRow(ZONE, "z")][1..] == [];
  }

  // ------------------------------------------------------------ after the mark

  /** Reduction, dump and the schedule's date are durable; the stamp is not. */
  const MARKED_DB: Db := DB.(store := ZONED, grants := map[0 := REDUCED], published := Some(Dump(Some(0), LISTING)), lastSuccess := Some(0))
  const MARKED: Run := FROZEN.(phase := Bookkept, tx := EMPTY, kept := UNSTAMPED)

  lemma MarkStep(keyOf: KeyFn)
    ensures var s := At(DB.(store := ZONED), READY, keyOf);
            Enabled(s, Mark(0, 0, true)) && Next(s, Mark(0, 0, true)) == At(MARKED_DB, MARKED, keyOf)
  {
    assert map[0 := ROW] + map[0 := REDUCED] == map[0 := REDUCED];
  }

  lemma MarkedRun(keyOf: KeyFn) returns (labels: seq<Label>)
    ensures RunsTo(State(DB, map[], keyOf), labels, At(MARKED_DB, MARKED, keyOf))
  {
    labels := DecideAndPublish(keyOf);
    MarkStep(keyOf);
    labels := Then(State(DB, map[], keyOf), labels, At(DB.(store := ZONED), READY, keyOf), Mark(0, 0, true), At(MARKED_DB, MARKED, keyOf));
  }

  /** The schedule's own commit makes a power reduction and a dump durable, and the dump shows the grant
      at the power of its request.  The crash leaves both unstamped. */
  lemma CrashLosesStamp(keyOf: KeyFn) returns (labels: seq<Label>, s: State)
    ensures Reached(s, DB, keyOf, labels)
    ensures 0 in s.runs && s.runs[0].phase == Failed && s.runs[0].kept == UNSTAMPED && s.db.stamp == None
    ensures 0 in s.db.grants && s.db.grants[0].maxEirp == Some(10.0)
    ensures s.db.published.Some? && s.db.published.value.run == Some(0)
    ensures 0 in s.db.published.value.listing && s.db.published.value.listing[0].eirp == Some(20.0)
  {
    labels := MarkedRun(keyOf);
    var a := At(MARKED_DB, MARKED, keyOf);
    s := Next(a, Crash(0));
    labels := Then(State(DB, map[], keyOf), labels, a, Crash(0), s);
  }

  // -------------------------------------------------------- a second run overtakes

  function Both(db: Db, first: Run, second: Run, keyOf: KeyFn): (s: State) { State(db, map[0 := first, 1 := second], keyOf) }

  const READ1: Run := START.(phase := RowsFrozen, frozen := ZONED, active := {0})
  const FROZEN1: Run := READ1.(phase := Frozen, generation := Fingerprint(map[], ZONED.counters), atCounters := ZONED)
  const LOCKED1: Run := FROZEN1.(phase := Locked, iap := true)
  const APPLIED1: Run := LOCKED1.(phase := Deciding([]), tx := EMPTY.(decided := true))
  const BUILT1: Run := APPLIED1.(phase := Built(LISTING))
  const READY1: Run := APPLIED1.(phase := Published, tx := APPLIED1.tx.(published := Some(Dump(Some(1), LISTING))))
  const MARKED1: Run := READY1.(phase := CpasPipeline.Marked)
  const CLEARED1: Run := READY1.(phase := Cleared, tx := READY1.tx.(reeval := Some(false)))
  const STAMPED1: Run := CLEARED1.(phase := Stamped, tx := CLEARED1.tx.(stamp := Some(Stamp(1, FROZEN1.generation))))
  const DONE1: Run := FROZEN1.(phase := Done, tx := EMPTY, kept := ALL_KEPT)

  const OVERTAKEN_DB: Db := MARKED_DB.(published := Some(Dump(Some(1), LISTING)), stamp := Some(Stamp(1, FROZEN1.generation)),
                                       audits := [PipelineCompleted(1)])

  lemma SecondFreezes(keyOf: KeyFn)
    ensures var f := MARKED; var db := MARKED_DB;
            && Enabled(At(db, f, keyOf), NewRun(1)) && Next(At(db, f, keyOf), NewRun(1)) == Both(db, f, START, keyOf)
            && Enabled(Both(db, f, START, keyOf), FreezeRows(1)) && Next(Both(db, f, START, keyOf), FreezeRows(1)) == Both(db, f, READ1, keyOf)
            && Enabled(Both(db, f, READ1, keyOf), FreezeCounters(1))
            && Next(Both(db, f, READ1, keyOf), FreezeCounters(1)) == Both(db, f, FROZEN1, keyOf)
  {
    assert Listing(MARKED_DB).Keys == {0};
    assert ActiveGrants(MARKED_DB) == {0};
  }

  lemma SecondEnters(keyOf: KeyFn)
    ensures Enabled(Both(MARKED_DB, MARKED, FROZEN1, keyOf), Enter(1)) && Next(Both(MARKED_DB, MARKED, FROZEN1, keyOf), Enter(1)) == Both(MARKED_DB, MARKED, LOCKED1, keyOf)
  {
  }

  lemma SecondChecks(keyOf: KeyFn)
    ensures Enabled(Both(MARKED_DB, MARKED, LOCKED1, keyOf), Check(1, [])) && Next(Both(MARKED_DB, MARKED, LOCKED1, keyOf), Check(1, [])) == Both(MARKED_DB, MARKED, APPLIED1, keyOf)
  {
  }

  lemma SecondBuilds(keyOf: KeyFn)
    ensures Enabled(Both(MARKED_DB, MARKED, APPLIED1, keyOf), Build(1)) && Next(Both(MARKED_DB, MARKED, APPLIED1, keyOf), Build(1)) == Both(MARKED_DB, MARKED, BUILT1, keyOf)
  {
    assert View(MARKED_DB, APPLIED1.tx).grants == map[0 := REDUCED];
    assert Listing(View(MARKED_DB, APPLIED1.tx)).Keys == {0};
    assert Listing(View(MARKED_DB, APPLIED1.tx)) == LISTING;
  }

  lemma SecondPublishes(keyOf: KeyFn)
    ensures Enabled(Both(MARKED_DB, MARKED, BUILT1, keyOf), Publish(1)) && Next(Both(MARKED_DB, MARKED, BUILT1, keyOf), Publish(1)) == Both(MARKED_DB, MARKED, READY1, keyOf)
  {
  }

  lemma SecondMarks(keyOf: KeyFn)
    ensures Enabled(Both(MARKED_DB, MARKED, READY1, keyOf), Mark(1, 0, false)) && Next(Both(MARKED_DB, MARKED, READY1, keyOf), Mark(1, 0, false)) == Both(MARKED_DB, MARKED, MARKED1, keyOf)
  {
  }

  lemma SecondClears(keyOf: KeyFn)
    ensures Enabled(Both(MARKED_DB, MARKED, MARKED1, keyOf), Clear(1)) && Next(Both(MARKED_DB, MARKED, MARKED1, keyOf), Clear(1)) == Both(MARKED_DB, MARKED, CLEARED1, keyOf)
  {
  }

  lemma SecondRecords(keyOf: KeyFn)
    ensures Enabled(Both(MARKED_DB, MARKED, CLEARED1, keyOf), Record(1)) && Next(Both(MARKED_DB, MARKED, CLEARED1, keyOf), Record(1)) == Both(MARKED_DB, MARKED, STAMPED1, keyOf)
  {
  }

  lemma SecondFinishes(keyOf: KeyFn)
    ensures Enabled(Both(MARKED_DB, MARKED, STAMPED1, keyOf), Finish(1))
    ensures Next(Both(MARKED_DB, MARKED, STAMPED1, keyOf), Finish(1)) == Both(OVERTAKEN_DB, MARKED, DONE1, keyOf)
  {
    assert map[0 := REDUCED] + map[] == map[0 := REDUCED];
    assert MARKED_DB.audits + ([] + [PipelineCompleted(1)]) == [PipelineCompleted(1)];
  }

  lemma OvertakingRun(keyOf: KeyFn) returns (labels: seq<Label>)
    ensures RunsTo(At(MARKED_DB, MARKED, keyOf), labels, Both(OVERTAKEN_DB, MARKED, DONE1, keyOf))
  {
    var s, f, db := At(MARKED_DB, MARKED, keyOf), MARKED, MARKED_DB;
    SecondFreezes(keyOf);
    labels := Then(s, [], s, NewRun(1), Both(db, f, START, keyOf));
    labels := Then(s, labels, Both(db, f, START, keyOf), FreezeRows(1), Both(db, f, READ1, keyOf));
    labels := Then(s, labels, Both(db, f, READ1, keyOf), FreezeCounters(1), Both(db, f, FROZEN1, keyOf));
    SecondEnters(keyOf);
    SecondChecks(keyOf);
    labels := Then(s, labels, Both(db, f, FROZEN1, keyOf), Enter(1), Both(db, f, LOCKED1, keyOf));
    labels := Then(s, labels, Both(db, f, LOCKED1, keyOf), Check(1, []), Both(db, f, APPLIED1, keyOf));
    SecondBuilds(keyOf);
    SecondPublishes(keyOf);
    labels := Then(s, labels, Both(db, f, APPLIED1, keyOf), Build(1), Both(db, f, BUILT1, keyOf));
    labels := Then(s, labels, Both(db, f, BUILT1, keyOf), Publish(1), Both(db, f, READY1, keyOf));
    SecondMarks(keyOf);
    SecondClears(keyOf);
    SecondRecords(keyOf);
    labels := Then(s, labels, Both(db, f, READY1, keyOf), Mark(1, 0, false), Both(db, f, MARKED1, keyOf));
    labels := Then(s, labels, Both(db, f, MARKED1, keyOf), Clear(1), Both(db, f, CLEARED1, keyOf));
    labels := Then(s, labels, Both(db, f, CLEARED1, keyOf), Record(1), Both(db, f, STAMPED1, keyOf));
    SecondFinishes(keyOf);
    labels := Then(s, labels, Both(db, f, STAMPED1, keyOf), Finish(1), Both(OVERTAKEN_DB, MARKED, DONE1, keyOf));
  }

  lemma {:induction false} RunThenRun(s: State, first: seq<Label>, mid: State, second: seq<Label>, end: State)
    requires RunsTo(s, first, mid) && RunsTo(mid, second, end)
    ensures RunsTo(s, first + second, end)
    decreases |first|
  {
    if first == [] {
      assert first + second == second;
    } else {
      assert (first + second)[1..] == first[1..] + second;
      RunThenRun(Next(s, first[0]), first[1..], mid, second, end);
    }
  }

  const AUDITED_DB: Db := OVERTAKEN_DB.(audits := [PipelineCompleted(1), ScheduledEndOk(0)])
  const LATE: Run := MARKED.(phase := CpasPipeline.Marked)
  const LATE_CLEARED: Run := LATE.(phase := Cleared, tx := EMPTY.(reeval := Some(false)))
  const LATE_STAMPED: Run := LATE_CLEARED.(phase := Stamped, tx := LATE_CLEARED.tx.(stamp := Some(Stamp(0, FROZEN.generation))))

  lemma FirstAudits(keyOf: KeyFn)
    ensures Enabled(Both(OVERTAKEN_DB, MARKED, DONE1, keyOf), MarkAudit(0))
    ensures Next(Both(OVERTAKEN_DB, MARKED, DONE1, keyOf), MarkAudit(0)) == Both(AUDITED_DB, LATE, DONE1, keyOf)
  {
    assert map[0 := REDUCED] + map[] == map[0 := REDUCED];
    assert [PipelineCompleted(1)] + ([] + [ScheduledEndOk(0)]) == AUDITED_DB.audits;
  }

  lemma FirstClears(keyOf: KeyFn)
    ensures Enabled(Both(AUDITED_DB, LATE, DONE1, keyOf), Clear(0)) && Next(Both(AUDITED_DB, LATE, DONE1, keyOf), Clear(0)) == Both(AUDITED_DB, LATE_CLEARED, DONE1, keyOf)
  {
  }

  lemma FirstRecords(keyOf: KeyFn)
    ensures Enabled(Both(AUDITED_DB, LATE_CLEARED, DONE1, keyOf), Record(0)) && Next(Both(AUDITED_DB, LATE_CLEARED, DONE1, keyOf), Record(0)) == Both(AUDITED_DB, LATE_STAMPED, DONE1, keyOf)
  {
  }

  lemma FirstFinishes(keyOf: KeyFn)
    ensures var s := Both(AUDITED_DB, LATE_STAMPED, DONE1, keyOf); var end := Next(s, Finish(0));
            && Enabled(s, Finish(0)) && PublishedBy(end.db, 1) && end.db.stamp == Some(Stamp(0, FROZEN.generation))
            && 0 in end.runs && 1 in end.runs && end.runs[0].kept == ALL_KEPT && end.runs[1].kept == ALL_KEPT
  {
  }

  lemma TailRun(keyOf: KeyFn) returns (labels: seq<Label>)
    ensures RunsTo(Both(OVERTAKEN_DB, MARKED, DONE1, keyOf), labels, Both(AUDITED_DB, LATE_STAMPED, DONE1, keyOf))
  {
    var s, db := Both(OVERTAKEN_DB, MARKED, DONE1, keyOf), AUDITED_DB;
    FirstAudits(keyOf);
    FirstClears(keyOf);
    FirstRecords(keyOf);
    labels := Then(s, [], s, MarkAudit(0), Both(db, LATE, DONE1, keyOf));
    labels := Then(s, labels, Both(db, LATE, DONE1, keyOf), Clear(0), Both(db, LATE_CLEARED, DONE1, keyOf));
    labels := Then(s, labels, Both(db, LATE_CLEARED, DONE1, keyOf), Record(0), Both(db, LATE_STAMPED, DONE1, keyOf));
  }

  /** Between the first run's own commit and its stamp a second run publishes and stamps: in the end the
      published dump is the second's and the stamp the first's. */
  lemma StampOfAnOlderRun(keyOf: KeyFn) returns (labels: seq<Label>, s: State)
    ensures Reached(s, DB, keyOf, labels)
    ensures PublishedBy(s.db, 1) && s.db.stamp.Some? && s.db.stamp.value.run == 0
    ensures 0 in s.runs && 1 in s.runs && s.runs[0].kept == ALL_KEPT && s.runs[1].kept == ALL_KEPT
  {
    var start, overtaken := State(DB, map[], keyOf), Both(OVERTAKEN_DB, MARKED, DONE1, keyOf);
    var last := Both(AUDITED_DB, LATE_STAMPED, DONE1, keyOf);
    var first := MarkedRun(keyOf);
    var second := OvertakingRun(keyOf);
    var third := TailRun(keyOf);
    RunThenRun(start, first, At(MARKED_DB, MARKED, keyOf), second, overtaken);
    RunThenRun(start, first + second, overtaken, third, last);
    FirstFinishes(keyOf);
    s := Next(last, Finish(0));
    labels := Then(start, first + second + third, last, Finish(0), s);
  }
}
