/** The daily-activities pipeline (services/cpas_service.py, services/cpas_schedule_service.py) as a
    protocol of steps over committed tables and one open transaction per run, against concurrent
    injections, peer syncs, grant traffic and dumps. */
module CpasPipeline {
  import opened Wrappers
  import opened Lifecycle
  import opened Decisions
  import opened Injection
  import SpectrumInquiry

  datatype Fingerprint = Fingerprint(peers: map<int, string>, counters: Counters)

  /** What an activity dump says of a grant: the power is the one requested, as long as the stored
      request can be read. */
  datatype GrantRecord = GrantRecord(
    grantId: string, channel: SpectrumInquiry.Kind, expire: int, low: int, high: int, eirp: Option<real>, terminated: bool)

  /** `run` is None for a dump that an administrator asked for. */
  datatype Dump = Dump(run: Option<nat>, listing: map<int, GrantRecord>)

  datatype Stamp = Stamp(run: nat, generation: Fingerprint)

  datatype Audit = PipelineCompleted(run: nat) | PipelineFailed(run: nat) | ScheduledEndOk(run: nat)

  datatype Db = Db(
    grants: map<int, Row>, cbsds: set<string>, store: Store, peers: map<int, string>, published: Option<Dump>,
    stamp: Option<Stamp>, reeval: bool, scheduleOn: bool, lastSuccess: Option<int>, audits: seq<Audit>)

  /** What a transaction has written and not yet committed. */
  datatype Tx = Tx(
    decided: bool, grants: map<int, Row>, published: Option<Dump>, stamp: Option<Stamp>, reeval: Option<bool>,
    lastSuccess: Option<int>, audits: seq<Audit>)

  const EMPTY: Tx := Tx(false, map[], None, None, None, None, [])

  function OrElse<T>(a: Option<T>, b: Option<T>): (r: Option<T>) { if a.Some? then a else b }

  /** The tables as the transaction sees them; a commit makes this the committed state. */
  function View(db: Db, tx: Tx): (r: Db) {
    db.(grants := db.grants + tx.grants, published := OrElse(tx.published, db.published), stamp := OrElse(tx.stamp, db.stamp),
        reeval := if tx.reeval.Some? then tx.reeval.value else db.reeval, lastSuccess := OrElse(tx.lastSuccess, db.lastSuccess),
        audits := db.audits + tx.audits)
  }

  function FingerprintOf(db: Db): (f: Fingerprint) {
    Fingerprint(db.peers, db.store.counters)
  }

  function RecordOf(row: Row): (r: GrantRecord) {
    GrantRecord(row.grantId, row.channel, row.expire, row.low, row.high,
                if row.requestedEirp.Some? then row.requestedEirp else row.maxEirp, row.terminated)
  }

  /** What an activity dump lists: the grants not terminated of the CBSDs registered. */
  function Listing(db: Db): (r: map<int, GrantRecord>) {
    map pk | pk in db.grants && !db.grants[pk].terminated && db.grants[pk].cbsd in db.cbsds :: RecordOf(db.grants[pk])
  }

  /** The record of a grant, field by field. */
  predicate Records(rec: GrantRecord, row: Row) {
    && rec.grantId == row.grantId && rec.channel == row.channel && rec.expire == row.expire
    && rec.low == row.low && rec.high == row.high && rec.terminated == row.terminated
    && (row.requestedEirp.Some? ==> rec.eirp == row.requestedEirp)
    && (row.requestedEirp.None? ==> rec.eirp == row.maxEirp)
  }

  predicate Reported(grants: map<int, Row>, cbsds: set<string>, pk: int) {
    pk in grants && !grants[pk].terminated && grants[pk].cbsd in cbsds
  }

  /** The listing is right about a grant: it is there exactly if it is not terminated and its CBSD is
      registered, and its record says what the row says. */
  predicate ListedInFields(grants: map<int, Row>, cbsds: set<string>, listing: map<int, GrantRecord>, pk: int) {
    && (pk in listing <==> Reported(grants, cbsds, pk))
    && (pk in listing && pk in grants ==> Records(listing[pk], grants[pk]))
  }

  lemma ListingExactly(db: Db, listing: map<int, GrantRecord>, pk: int)
    requires AgreesAt(listing, Listing(db), pk)
    ensures ListedInFields(db.grants, db.cbsds, listing, pk)
  {
  }

  predicate AgreesAt(a: map<int, GrantRecord>, b: map<int, GrantRecord>, pk: int) {
    (pk in a <==> pk in b) && (pk in a && pk in b ==> a[pk] == b[pk])
  }

  /** The grants that two tables list differently. */
  function ListedDifferently(before: Db, after: Db): (pks: set<int>) {
    set pk | pk in Listing(before).Keys + Listing(after).Keys && !AgreesAt(Listing(before), Listing(after), pk)
  }

  /** Two tables list a grant differently exactly when one reports it and the other does not, or the
      rows differ in what a record shows. */
  lemma ListedDifferentlyExactly(before: Db, after: Db, pk: int)
    ensures pk in ListedDifferently(before, after) <==>
            || Reported(before.grants, before.cbsds, pk) != Reported(after.grants, after.cbsds, pk)
            || (Reported(before.grants, before.cbsds, pk) && forall rec :: Records(rec, before.grants[pk]) ==> !Records(rec, after.grants[pk]))
  {
    ListingExactly(before, Listing(before), pk);
    ListingExactly(after, Listing(after), pk);
    if pk in Listing(before) && pk in Listing(after) {
      RecordIsOne(before.grants[pk]);
      RecordIsOne(after.grants[pk]);
    }
  }

  lemma RecordIsOne(row: Row)
    ensures Records(RecordOf(row), row) && forall rec :: Records(rec, row) ==> rec == RecordOf(row)
  {
  }

  function ActiveGrants(db: Db): (pks: set<int>) {
    set pk | pk in Listing(db)
  }

  /** One decision, applied to the row as the transaction sees it. */
  function DecisionApplied(db: Db, tx: Tx, d: Decision, now: int): (tx': Tx) {
    if d.pk.Some? && d.pk.value in View(db, tx).grants then
      tx.(grants := tx.grants[d.pk.value := Decided(View(db, tx).grants[d.pk.value], d, now)])
    else tx
  }

  // ----------------------------------------------------------- the machine

  datatype Phase =
    | Fresh | RowsFrozen | Frozen
    | Locked | Drifted | Deciding(ds: seq<Decision>) | Built(listing: map<int, GrantRecord>) | Published
    | Bookkept | Marked | Cleared | Stamped
    | Done | Failed

  /** What of a run has become durable. */
  datatype Kept = Kept(decisions: bool, dump: bool, stamp: bool)

  /** `frozen` and `active` are the snapshot; `atCounters` is the store at the moment the counters
      were read; `touched` holds the grants whose listing others have changed since the
      dump was built. */
  datatype Run = Run(
    phase: Phase, iap: bool, frozen: Store, active: set<int>, generation: Fingerprint, atCounters: Store, tx: Tx, touched: set<int>,
    kept: Kept)

  datatype State = State(db: Db, runs: map<nat, Run>, keyOf: KeyFn)

  datatype Label =
    | NewRun(run: nat)
    | FreezeRows(run: nat)
    | FreezeCounters(run: nat)
    | Enter(run: nat)
    | Check(run: nat, decisions: seq<Decision>)
    | Apply(run: nat, now: int)
    | Build(run: nat)
    | Publish(run: nat)
    | Mark(run: nat, today: int, inWindow: bool)
    | MarkAudit(run: nat)
    | Clear(run: nat)
    | Record(run: nat)
    | Finish(run: nat)
    | Fail(run: nat)
    | Crash(run: nat)
    // The rest of the system.
    | Inject(kind: string, raw: string)
    | InjectSensor(id: string, raw: string)
    | CreatePpa(raw: string)
    | WriteUncounted(rows: seq<InjRow>)
    | ApplyPeer(peer: int, generation: string)
    | GrantTraffic(grants: map<int, Row>, cbsds: set<string>)
    | OtherDump
    | SetSchedule(on: bool)

  const PROTECTED: set<string> := {"zone", "wisp", "esc_zone", "cluster_list"}

  /** Kinds written under the admission lock; the other two are not. */
  const SERIALIZED: set<string> := PROTECTED + {"fss", "gwbl"}
  const UNSERIALIZED: set<string> := {"database_url", "sas_admin"}

  ghost predicate IapHeld(s: State) {
    exists r :: r in s.runs && s.runs[r].iap
  }

  ghost predicate RowHeld(s: State, pk: int) {
    exists r :: r in s.runs && pk in s.runs[r].tx.grants
  }

  /** The rows a run may decide on: those it froze. */
  predicate OnlyActive(ds: seq<Decision>, active: set<int>) {
    forall d :: d in ds && d.pk.Some? ==> d.pk.value in active
  }

  ghost predicate SameProtected(a: Store, b: Store) {
    a.sensors == b.sensors && forall kind :: kind in PROTECTED ==> RowsOf(a.rows, kind) == RowsOf(b.rows, kind)
  }

  /** Other sessions cannot change a row that a run has locked, nor deregister its CBSD. */
  ghost predicate RespectsLocks(s: State, grants: map<int, Row>, cbsds: set<string>) {
    forall pk :: pk in s.db.grants && RowHeld(s, pk) ==>
                   pk in grants && grants[pk] == s.db.grants[pk] && (s.db.grants[pk].cbsd in s.db.cbsds <==> grants[pk].cbsd in cbsds)
  }

  ghost predicate In(s: State, r: nat, phase: Phase) {
    r in s.runs && s.runs[r].phase == phase
  }

  ghost predicate RunEnabled(s: State, l: Label) {
    match l
    case NewRun(r) => r !in s.runs
    case FreezeRows(r) => In(s, r, Fresh)
    case FreezeCounters(r) => In(s, r, RowsFrozen)
    case Enter(r) => In(s, r, Frozen) && !IapHeld(s)
    case Check(r, ds) => In(s, r, Locked) && OnlyActive(ds, s.runs[r].active)
    case Apply(r, _) =>
      && r in s.runs && s.runs[r].phase.Deciding? && s.runs[r].phase.ds != []
      && (s.runs[r].phase.ds[0].pk.Some? ==> forall u :: u in s.runs && u != r ==> s.runs[r].phase.ds[0].pk.value !in s.runs[u].tx.grants)
    case Build(r) => In(s, r, Deciding([]))
    case Publish(r) => r in s.runs && s.runs[r].phase.Built? && forall u :: u in s.runs && u != r ==> s.runs[u].tx.published.None?
    case Mark(r, _, _) => In(s, r, Published)
    case MarkAudit(r) => In(s, r, Bookkept)
    case Clear(r) => In(s, r, Marked)
    case Record(r) => In(s, r, Cleared)
    case Finish(r) => In(s, r, Stamped)
    case Fail(r) => r in s.runs && s.runs[r].phase !in {Done, Failed}
    case Crash(r) => r in s.runs && s.runs[r].phase !in {Done, Failed}
    case _ => false
  }

  ghost predicate OtherEnabled(s: State, l: Label) {
    match l
    case Inject(kind, _) => kind in UNSERIALIZED || (kind in SERIALIZED && !IapHeld(s))
    case InjectSensor(_, _) => !IapHeld(s)
    case CreatePpa(_) => !IapHeld(s)
    case WriteUncounted(rows) => SameProtected(s.db.store, s.db.store.(rows := rows))
    case ApplyPeer(_, _) => !IapHeld(s)
    case GrantTraffic(grants, cbsds) => RespectsLocks(s, grants, cbsds)
    case OtherDump => forall u :: u in s.runs ==> s.runs[u].tx.published.None?
    case SetSchedule(_) => true
    case _ => false
  }

  ghost predicate Enabled(s: State, l: Label) {
    RunEnabled(s, l) || OtherEnabled(s, l)
  }

  function Keeping(kept: Kept, tx: Tx): (k: Kept) {
    Kept(kept.decisions || tx.decided, kept.dump || tx.published.Some?, kept.stamp || tx.stamp.Some?)
  }

  /** The run commits its transaction and goes on with an empty one. */
  function CommitRun(db: Db, run: Run, phase: Phase): (r: (Db, Run)) {
    (View(db, run.tx), run.(tx := EMPTY, kept := Keeping(run.kept, run.tx), phase := phase))
  }

  /** One step of run r on the committed tables and its own state. */
  function RunStep(db: Db, run: Run, l: Label): (r: (Db, Run)) {
    var tx := run.tx;
    match l
    case FreezeRows(_) => (db, run.(phase := RowsFrozen, frozen := db.store, active := ActiveGrants(db)))
    case FreezeCounters(_) => (db, run.(phase := Frozen, generation := FingerprintOf(db), atCounters := db.store))
    case Enter(_) => (db, run.(phase := Locked, iap := true))
    case Check(_, ds) =>
      if FingerprintOf(db) != run.generation then CommitRun(db, run.(tx := tx.(reeval := Some(true))), Drifted)
      else (db, run.(phase := Deciding(ds), tx := tx.(decided := true)))
    case Apply(_, now) =>
      if run.phase.Deciding? && run.phase.ds != [] then
        (db, run.(phase := Deciding(run.phase.ds[1..]), tx := DecisionApplied(db, tx, run.phase.ds[0], now)))
      else (db, run)
    case Build(_) => (db, run.(phase := Built(Listing(View(db, tx))), touched := {}))
    case Publish(id) =>
      if run.phase.Built? then (db, run.(phase := Published, tx := tx.(published := Some(Dump(Some(id), run.phase.listing))))) else (db, run)
    case Mark(id, today, inWindow) =>
      if !db.scheduleOn || !inWindow then (db, run.(phase := Marked))
      else
        // The first of the schedule's own commits; it lets the transaction locks go.
        var (db1, run1) := CommitRun(db, run.(tx := tx.(lastSuccess := Some(today))), Bookkept);
        (db1, run1.(iap := false))
    case MarkAudit(id) => CommitRun(db, run.(tx := tx.(audits := tx.audits + [ScheduledEndOk(id)])), Marked)
    case Clear(_) => (db, run.(phase := Cleared, tx := tx.(reeval := Some(false))))
    case Record(id) => (db, run.(phase := Stamped, tx := tx.(stamp := Some(Stamp(id, run.generation)))))
    case Finish(id) =>
      var (db1, run1) := CommitRun(db, run.(tx := tx.(audits := tx.audits + [PipelineCompleted(id)])), Done);
      (db1, run1.(iap := false))
    // The exception handler: roll back, then commit a failure audit.
    case Fail(id) =>
      var (db1, run1) := CommitRun(db, run.(tx := EMPTY.(audits := [PipelineFailed(id)])), Failed);
      (db1, run1.(iap := false))
    case Crash(_) => (db, run.(phase := Failed, tx := EMPTY, iap := false))
    case _ => (db, run)
  }

  function OtherStep(db: Db, keyOf: KeyFn, l: Label): (r: Db) {
    match l
    case Inject(kind, raw) => db.(store := Injected(keyOf, db.store, kind, raw))
    case InjectSensor(id, raw) => db.(store := SensorInjected(db.store, id, raw))
    case CreatePpa(raw) => db.(store := ZoneAppended(db.store, raw))
    case WriteUncounted(rows) => db.(store := db.store.(rows := rows))
    case ApplyPeer(p, generation) => db.(peers := db.peers[p := generation])
    case GrantTraffic(grants, cbsds) => db.(grants := grants, cbsds := cbsds)
    case OtherDump => db.(published := Some(Dump(None, Listing(db))))
    case SetSchedule(on) => db.(scheduleOn := on)
    case _ => db
  }

  /** The run takes note of what others have changed. */
  function Touched(run: Run, before: Db, after: Db): (r: Run) {
    run.(touched := run.touched + ListedDifferently(before, after))
  }

  function RunOf(l: Label): (r: Option<nat>) {
    match l
    case FreezeRows(r) => Some(r)
    case FreezeCounters(r) => Some(r)
    case Enter(r) => Some(r)
    case Check(r, _) => Some(r)
    case Apply(r, _) => Some(r)
    case Build(r) => Some(r)
    case Publish(r) => Some(r)
    case Mark(r, _, _) => Some(r)
    case MarkAudit(r) => Some(r)
    case Clear(r) => Some(r)
    case Record(r) => Some(r)
    case Finish(r) => Some(r)
    case Fail(r) => Some(r)
    case Crash(r) => Some(r)
    case _ => None
  }

  const NOTHING: Fingerprint := Fingerprint(map[], map[])

  const START: Run :=
    Run(Fresh, false, Store([], map[], map[]), {}, NOTHING, Store([], map[], map[]), EMPTY, {}, Kept(false, false, false))

  function Next(s: State, l: Label): (s': State)
    requires RunOf(l).Some? ==> RunOf(l).value in s.runs
  {
    match RunOf(l)
    case Some(r) =>
      var (db, run) := RunStep(s.db, s.runs[r], l);
      s.(db := db, runs := s.runs[r := run])
    case None =>
      if l.NewRun? then s.(runs := s.runs[l.run := START])
      else if l.GrantTraffic? then
        s.(db := OtherStep(s.db, s.keyOf, l), runs := map r | r in s.runs :: Touched(s.runs[r], s.db, OtherStep(s.db, s.keyOf, l)))
      else s.(db := OtherStep(s.db, s.keyOf, l))
  }

  ghost predicate Legal(s: State, labels: seq<Label>)
    decreases |labels|
  {
    labels == [] || (Enabled(s, labels[0]) && Legal(Next(s, labels[0]), labels[1..]))
  }

  ghost function After(s: State, labels: seq<Label>): (s': State)
    requires Legal(s, labels)
    decreases |labels|
  {
    if labels == [] then s else After(Next(s, labels[0]), labels[1..])
  }

  ghost predicate RunsTo(s: State, labels: seq<Label>, end: State) {
    Legal(s, labels) && After(s, labels) == end
  }

  lemma {:induction false} Then(s: State, labels: seq<Label>, mid: State, l: Label, end: State) returns (longer: seq<Label>)
    requires RunsTo(s, labels, mid) && Enabled(mid, l) && Next(mid, l) == end
    ensures RunsTo(s, longer, end) && longer == labels + [l]
    decreases |labels|
  {
    longer := labels + [l];
    if labels == [] {
      assert longer == [l] && [l][1..] == [];
    } else {
      var rest := Then(Next(s, labels[0]), labels[1..], mid, l, end);
      assert longer[1..] == rest;
    }
  }

  // --------------------------------------------------------------- invariant

  const NONE_KEPT: Kept := Kept(false, false, false)
  const UNSTAMPED: Kept := Kept(true, true, false)
  const ALL_KEPT: Kept := Kept(true, true, true)

  /** The transaction that holds decisions and dump is open, or they are committed already. */
  ghost predicate Carries(r: nat, run: Run) {
    || (run.kept == NONE_KEPT && run.iap && run.tx.decided && run.tx.published.Some? && run.tx.published.value.run == Some(r))
    || (run.kept == UNSTAMPED && !run.tx.decided && run.tx.grants == map[] && run.tx.published.None?)
  }

  ghost predicate Shape(r: nat, run: Run) {
    && (!run.iap ==> run.tx.grants == map[])
    && match run.phase
       case Fresh => run.tx == EMPTY && run.kept == NONE_KEPT
       case RowsFrozen => run.tx == EMPTY && run.kept == NONE_KEPT
       case Frozen => run.tx == EMPTY && run.kept == NONE_KEPT
       case Locked => run.tx == EMPTY && run.kept == NONE_KEPT && run.iap
       case Drifted => run.tx == EMPTY && run.kept == NONE_KEPT && run.iap
       case Deciding(_) => run.tx.decided && run.tx.published.None? && run.tx.stamp.None? && run.kept == NONE_KEPT && run.iap
       case Built(_) => run.tx.decided && run.tx.published.None? && run.tx.stamp.None? && run.kept == NONE_KEPT && run.iap
       case Published => Carries(r, run) && run.tx.stamp.None? && run.kept == NONE_KEPT
       case Bookkept => run.tx == EMPTY && run.kept == UNSTAMPED
       case Marked => Carries(r, run) && run.tx.stamp.None?
       case Cleared => Carries(r, run) && run.tx.stamp.None?
       case Stamped => Carries(r, run) && run.tx.stamp == Some(Stamp(r, run.generation))
       case Done => run.tx == EMPTY && run.kept == ALL_KEPT
       case Failed => run.tx == EMPTY && (run.kept == NONE_KEPT || run.kept == UNSTAMPED)
  }

  predicate CounterFollows(generation: Counters, now: Counters, kind: string) {
    CounterOf(generation, kind) <= CounterOf(now, kind)
  }

  /** Counters only go up, and an unchanged counter means unchanged rows. */
  ghost predicate Tracks(generation: Counters, then0: Store, now: Store) {
    && (forall kind :: kind in PROTECTED ==>
          CounterFollows(generation, now.counters, kind)
          && (CounterOf(generation, kind) == CounterOf(now.counters, kind) ==> RowsOf(then0.rows, kind) == RowsOf(now.rows, kind)))
    && CounterFollows(generation, now.counters, ESC_SENSOR)
    && (CounterOf(generation, ESC_SENSOR) == CounterOf(now.counters, ESC_SENSOR) ==> then0.sensors == now.sensors)
  }

  predicate Checked(phase: Phase) {
    phase.Deciding? || phase.Built? || phase.Published? || phase.Marked? || phase.Cleared? || phase.Stamped?
  }

  ghost predicate Guarded(run: Run, store: Store) {
    && (run.phase.Frozen? || run.phase.Locked? ==> Tracks(run.generation.counters, run.atCounters, store))
    && (Checked(run.phase) && run.tx.decided ==> SameProtected(run.atCounters, store))
  }

  /** The run's uncommitted rows: only rows it froze, only softened. */
  ghost predicate RowsSoft(db: Db, run: Run) {
    forall pk :: pk in run.tx.grants ==> pk in run.active && pk in db.grants && Softer(db.grants[pk], run.tx.grants[pk])
  }

  ghost predicate ActiveDecisions(run: Run) {
    run.phase.Deciding? ==> OnlyActive(run.phase.ds, run.active)
  }

  /** The listing is right about every row the run has changed, and about every other row that nobody
      else has touched since it was made. */
  ghost predicate ListsExactly(db: Db, run: Run, listing: map<int, GrantRecord>) {
    forall pk :: pk in run.tx.grants || pk !in run.touched ==> AgreesAt(listing, Listing(View(db, run.tx)), pk)
  }

  ghost predicate DumpRight(db: Db, run: Run) {
    && (run.phase.Built? ==> ListsExactly(db, run, run.phase.listing))
    && (run.tx.published.Some? ==> ListsExactly(db, run, run.tx.published.value.listing))
  }

  ghost predicate RunOk(db: Db, r: nat, run: Run) {
    Shape(r, run) && Guarded(run, db.store) && RowsSoft(db, run) && ActiveDecisions(run) && DumpRight(db, run)
  }

  ghost predicate OneInside(runs: map<nat, Run>) {
    forall r, u :: r in runs && u in runs && r != u ==> !(runs[r].iap && runs[u].iap)
  }

  ghost predicate Inv(s: State) {
    OneInside(s.runs) && forall r :: r in s.runs ==> RunOk(s.db, r, s.runs[r])
  }

  // ------------------------------------------------------- the run's own steps

  lemma DecidedSofter(row: Row, d: Decision, now: int)
    ensures Softer(row, Decided(row, d, now))
  {
  }

  lemma CheckIsSound(db: Db, run: Run)
    requires Tracks(run.generation.counters, run.atCounters, db.store) && FingerprintOf(db) == run.generation
    ensures SameProtected(run.atCounters, db.store)
  {
  }

  lemma ApplyKeeps(db: Db, r: nat, run: Run, now: int)
    requires RunOk(db, r, run) && run.phase.Deciding? && run.phase.ds != []
    ensures RunOk(db, r, RunStep(db, run, Apply(r, now)).1)
  {
    var d := run.phase.ds[0];
    assert d in run.phase.ds;
    if d.pk.Some? && d.pk.value in View(db, run.tx).grants {
      DecidedSofter(View(db, run.tx).grants[d.pk.value], d, now);
    }
  }

  lemma BuildKeeps(db: Db, r: nat, run: Run)
    requires RunOk(db, r, run) && run.phase == Deciding([])
    ensures RunOk(db, r, RunStep(db, run, Build(r)).1)
  {
  }

  lemma EarlyStepKeeps(s: State, l: Label, r: nat)
    requires Inv(s) && RunEnabled(s, l) && RunOf(l) == Some(r)
    requires l.FreezeRows? || l.FreezeCounters? || l.Enter? || l.Check?
    ensures RunOk(RunStep(s.db, s.runs[r], l).0, r, RunStep(s.db, s.runs[r], l).1)
  {
    var run := s.runs[r];
    assert RunOk(s.db, r, run);
    if l.Check? && FingerprintOf(s.db) == run.generation {
      CheckIsSound(s.db, run);
    }
  }

  lemma PublishKeeps(db: Db, r: nat, run: Run)
    requires RunOk(db, r, run) && run.phase.Built?
    ensures RunOk(db, r, RunStep(db, run, Publish(r)).1)
  {
  }

  lemma MarkKeeps(db: Db, r: nat, run: Run, today: int, inWindow: bool)
    requires RunOk(db, r, run) && run.phase == Published
    ensures RunOk(RunStep(db, run, Mark(r, today, inWindow)).0, r, RunStep(db, run, Mark(r, today, inWindow)).1)
  {
  }

  lemma BookkeepingKeeps(db: Db, r: nat, run: Run, l: Label)
    requires RunOk(db, r, run)
    requires (l == MarkAudit(r) && run.phase == Bookkept) || (l == Clear(r) && run.phase == Marked) || (l == Record(r) && run.phase == Cleared)
    ensures RunOk(RunStep(db, run, l).0, r, RunStep(db, run, l).1)
  {
  }

  lemma EndKeeps(db: Db, r: nat, run: Run, l: Label)
    requires RunOk(db, r, run)
    requires (l == Finish(r) && run.phase == Stamped) || (run.phase != Done && run.phase != Failed && (l == Fail(r) || l == Crash(r)))
    ensures RunOk(RunStep(db, run, l).0, r, RunStep(db, run, l).1)
  {
  }

  // ------------------------------------------------- steps seen by other runs

  /** Without the admission lock a run has nothing pending on grants or dumps. */
  lemma OutsideIsIdle(db: Db, r: nat, run: Run)
    requires RunOk(db, r, run) && !run.iap
    ensures run.tx.grants == map[] && !run.tx.decided && run.tx.published.None? && !run.phase.Built?
  {
  }

  /** A step of one run touches grants only if that run is inside, and never store or CBSDs. */
  lemma RunStepReach(db: Db, run: Run, l: Label)
    requires !run.iap ==> run.tx.grants == map[]
    ensures var db' := RunStep(db, run, l).0;
            && db'.store == db.store && db'.cbsds == db.cbsds && db'.scheduleOn == db.scheduleOn && db'.peers == db.peers
            && (!run.iap ==> db'.grants == db.grants)
  {
    assert db.grants + map[] == db.grants;
  }

  lemma SameListing(db: Db, db': Db, tx: Tx)
    requires db'.grants == db.grants && db'.cbsds == db.cbsds
    ensures Listing(View(db', tx)) == Listing(View(db, tx))
  {
  }

  lemma OtherRunKeeps(s: State, l: Label, u: nat, r: nat)
    requires Inv(s) && RunEnabled(s, l) && RunOf(l) == Some(u) && r in s.runs && r != u
    ensures RunOk(RunStep(s.db, s.runs[u], l).0, r, s.runs[r])
  {
    var run := s.runs[r];
    var db' := RunStep(s.db, s.runs[u], l).0;
    assert RunOk(s.db, r, run) && RunOk(s.db, u, s.runs[u]);
    RunStepReach(s.db, s.runs[u], l);
    if run.iap {
      SameListing(s.db, db', run.tx);
    } else {
      OutsideIsIdle(s.db, r, run);
    }
  }

  // ---------------------------------------------- steps of the rest of the system

  lemma InjectKeepsGuard(keyOf: KeyFn, run: Run, store: Store, kind: string, raw: string)
    requires Guarded(run, store) && (kind in UNSERIALIZED || (kind in SERIALIZED && !(Checked(run.phase) && run.tx.decided)))
    ensures Guarded(run, Injected(keyOf, store, kind, raw))
  {
    forall other | other in PROTECTED
      ensures CounterOf(Injected(keyOf, store, kind, raw).counters, other) == CounterOf(store.counters, other) + if other == kind then 1 else 0
      ensures other != kind ==> RowsOf(Injected(keyOf, store, kind, raw).rows, other) == RowsOf(store.rows, other)
    {
      WriteRaisesCounter(keyOf, store, kind, raw, other);
    }
    WriteRaisesCounter(keyOf, store, kind, raw, ESC_SENSOR);
  }

  lemma SensorKeepsGuard(run: Run, store: Store, id: string, raw: string)
    requires Guarded(run, store) && !(Checked(run.phase) && run.tx.decided)
    ensures Guarded(run, SensorInjected(store, id, raw))
  {
  }

  lemma ZoneKeepsGuard(run: Run, store: Store, raw: string)
    requires Guarded(run, store) && !(Checked(run.phase) && run.tx.decided)
    ensures Guarded(run, ZoneAppended(store, raw))
  {
    forall other | other in PROTECTED && other != ZONE ensures RowsOf(ZoneAppended(store, raw).rows, other) == RowsOf(store.rows, other) {
      RowsOfAppended(store.rows, InjRow(ZONE, raw), other);
    }
  }

  lemma UncountedKeepsGuard(run: Run, store: Store, rows: seq<InjRow>)
    requires Guarded(run, store) && SameProtected(store, store.(rows := rows))
    ensures Guarded(run, store.(rows := rows))
  {
  }

  /** A run whose check has passed and whose decisions are not committed still holds the lock. */
  lemma DecidedIsInside(db: Db, r: nat, run: Run)
    requires RunOk(db, r, run) && Checked(run.phase) && run.tx.decided
    ensures run.iap
  {
  }

  lemma TrafficKeeps(s: State, grants: map<int, Row>, cbsds: set<string>, r: nat)
    requires Inv(s) && RespectsLocks(s, grants, cbsds) && r in s.runs
    ensures RunOk(s.db.(grants := grants, cbsds := cbsds), r, Touched(s.runs[r], s.db, s.db.(grants := grants, cbsds := cbsds)))
  {
    var run := s.runs[r];
    var db' := s.db.(grants := grants, cbsds := cbsds);
    assert RunOk(s.db, r, run);
    forall pk | pk in run.tx.grants ensures pk in grants && grants[pk] == s.db.grants[pk] {
      assert RowHeld(s, pk);
    }
    forall pk | pk in run.tx.grants || pk !in ListedDifferently(s.db, db')
      ensures AgreesAt(Listing(View(db', run.tx)), Listing(View(s.db, run.tx)), pk)
    {
      TrafficAgrees(s, grants, cbsds, r, pk);
    }
  }

  /** Traffic that leaves the listing of a row alone leaves it alone in the run's view too. */
  lemma TrafficAgrees(s: State, grants: map<int, Row>, cbsds: set<string>, r: nat, pk: int)
    requires RespectsLocks(s, grants, cbsds) && r in s.runs && RowsSoft(s.db, s.runs[r])
    requires pk in s.runs[r].tx.grants || pk !in ListedDifferently(s.db, s.db.(grants := grants, cbsds := cbsds))
    ensures AgreesAt(Listing(View(s.db.(grants := grants, cbsds := cbsds), s.runs[r].tx)), Listing(View(s.db, s.runs[r].tx)), pk)
  {
    var db' := s.db.(grants := grants, cbsds := cbsds);
    if pk in s.runs[r].tx.grants {
      assert RowHeld(s, pk);
    } else {
      assert AgreesAt(Listing(s.db), Listing(db'), pk);
    }
  }

  lemma OtherKeeps(s: State, l: Label, r: nat)
    requires Inv(s) && OtherEnabled(s, l) && r in s.runs
    ensures RunOk(OtherStep(s.db, s.keyOf, l), r,
                  if l.GrantTraffic? then Touched(s.runs[r], s.db, OtherStep(s.db, s.keyOf, l)) else s.runs[r])
  {
    var run := s.runs[r];
    assert RunOk(s.db, r, run);
    if Checked(run.phase) && run.tx.decided {
      DecidedIsInside(s.db, r, run);
    }
    match l
    case GrantTraffic(grants, cbsds) => TrafficKeeps(s, grants, cbsds, r);
    case Inject(kind, raw) =>
      InjectKeepsGuard(s.keyOf, run, s.db.store, kind, raw);
      SameListing(s.db, OtherStep(s.db, s.keyOf, l), run.tx);
    case InjectSensor(id, raw) =>
      SensorKeepsGuard(run, s.db.store, id, raw);
      SameListing(s.db, OtherStep(s.db, s.keyOf, l), run.tx);
    case CreatePpa(raw) =>
      ZoneKeepsGuard(run, s.db.store, raw);
      SameListing(s.db, OtherStep(s.db, s.keyOf, l), run.tx);
    case WriteUncounted(rows) =>
      UncountedKeepsGuard(run, s.db.store, rows);
      SameListing(s.db, OtherStep(s.db, s.keyOf, l), run.tx);
    case _ => SameListing(s.db, OtherStep(s.db, s.keyOf, l), run.tx);
  }

  lemma OwnStepKeeps(s: State, l: Label, r: nat)
    requires Inv(s) && RunEnabled(s, l) && RunOf(l) == Some(r)
    ensures RunOk(RunStep(s.db, s.runs[r], l).0, r, RunStep(s.db, s.runs[r], l).1)
  {
    assert RunOk(s.db, r, s.runs[r]);
    if l.Apply? {
      ApplyKeeps(s.db, r, s.runs[r], l.now);
    } else if l.Build? {
      BuildKeeps(s.db, r, s.runs[r]);
    } else if l.Publish? {
      PublishKeeps(s.db, r, s.runs[r]);
    } else if l.Mark? {
      MarkKeeps(s.db, r, s.runs[r], l.today, l.inWindow);
    } else if l.MarkAudit? || l.Clear? || l.Record? {
      BookkeepingKeeps(s.db, r, s.runs[r], l);
    } else if l.Finish? || l.Fail? || l.Crash? {
      EndKeeps(s.db, r, s.runs[r], l);
    } else {
      EarlyStepKeeps(s, l, r);
    }
  }

  lemma OnlyEnterTakes(db: Db, run: Run, l: Label)
    ensures RunStep(db, run, l).1.iap ==> run.iap || l.Enter?
  {
  }

  lemma RunStepKeepsInv(s: State, l: Label, u: nat)
    requires Inv(s) && RunEnabled(s, l) && RunOf(l) == Some(u)
    ensures Inv(Next(s, l))
  {
    var s' := Next(s, l);
    OwnStepKeeps(s, l, u);
    OnlyEnterTakes(s.db, s.runs[u], l);
    forall r | r in s'.runs ensures RunOk(s'.db, r, s'.runs[r]) {
      if r != u {
        OtherRunKeeps(s, l, u, r);
      }
    }
  }

  lemma StepKeepsInv(s: State, l: Label)
    requires Inv(s) && Enabled(s, l)
    ensures Inv(Next(s, l))
  {
    if RunOf(l).Some? {
      RunStepKeepsInv(s, l, RunOf(l).value);
    } else if !l.NewRun? {
      var s' := Next(s, l);
      forall r | r in s'.runs ensures RunOk(s'.db, r, s'.runs[r]) {
        OtherKeeps(s, l, r);
      }
    }
  }

  lemma {:induction false} RunKeepsInv(s: State, labels: seq<Label>)
    requires Inv(s) && Legal(s, labels)
    ensures Inv(After(s, labels))
    decreases |labels|
  {
    if labels != [] {
      StepKeepsInv(s, labels[0]);
      RunKeepsInv(Next(s, labels[0]), labels[1..]);
    }
  }

  // ---------------------------------------------------------------- theorems

  ghost predicate Reached(s: State, db: Db, keyOf: KeyFn, labels: seq<Label>) {
    Legal(State(db, map[], keyOf), labels) && s == After(State(db, map[], keyOf), labels)
  }

  lemma ReachedInv(s: State, db: Db, keyOf: KeyFn, labels: seq<Label>)
    requires Reached(s, db, keyOf, labels)
    ensures Inv(s)
  {
    RunKeepsInv(State(db, map[], keyOf), labels);
  }

  lemma ReachedRun(s: State, db: Db, keyOf: KeyFn, labels: seq<Label>, r: nat)
    requires Reached(s, db, keyOf, labels) && r in s.runs
    ensures RunOk(s.db, r, s.runs[r])
  {
    ReachedInv(s, db, keyOf, labels);
  }

  /** At every moment of every interleaving, crashes and exceptions included: a run's decisions are
      durable exactly when its dump is, its stamp only after both, a completed run has all three and
      a run refused for drift none. */
  lemma DecisionsAndDumpTogether(s: State, db: Db, keyOf: KeyFn, labels: seq<Label>, r: nat)
    requires Reached(s, db, keyOf, labels) && r in s.runs
    ensures s.runs[r].kept.decisions == s.runs[r].kept.dump
    ensures s.runs[r].kept.stamp ==> s.runs[r].kept.decisions
    ensures s.runs[r].kept.stamp <==> s.runs[r].phase == Done
    ensures s.runs[r].phase == Drifted ==> s.runs[r].kept == NONE_KEPT
  {
    ReachedRun(s, db, keyOf, labels, r);
  }

  /** This step makes the run's decisions durable. */
  ghost predicate Decides(s: State, l: Label, r: nat) {
    r in s.runs && RunOf(l) == Some(r) && !s.runs[r].kept.decisions && Next(s, l).runs[r].kept.decisions
  }

  /** Which steps of a run change grants, the published dump or the stamp, and how: grants and dump
      together in the deciding commit, the stamp in the last one, with the generation that was frozen. */
  lemma ChangesOnlyAtCommits(s: State, db: Db, keyOf: KeyFn, labels: seq<Label>, l: Label, r: nat)
    requires Reached(s, db, keyOf, labels) && RunEnabled(s, l) && RunOf(l) == Some(r)
    ensures var s' := Next(s, l);
            && (s'.db.grants != s.db.grants || s'.db.published != s.db.published ==> Decides(s, l, r))
            && (s'.db.stamp != s.db.stamp ==>
                  l == Finish(r) && s'.db.stamp == Some(Stamp(r, s.runs[r].generation)) && s'.runs[r].kept == ALL_KEPT)
    ensures s.runs[r].phase == Drifted ==>
              Next(s, l).db.grants == s.db.grants && Next(s, l).db.published == s.db.published && Next(s, l).db.stamp == s.db.stamp
              && Next(s, l).runs[r].kept == NONE_KEPT && Next(s, l).runs[r].phase == Failed
  {
    ReachedRun(s, db, keyOf, labels, r);
    assert s.db.grants + map[] == s.db.grants;
  }

  /** The deciding commit: it publishes this run's own dump; the dump is right about every grant the
      run decided on and about every grant that nobody else touched since it was built; grants change
      only among the frozen ones and only towards less. */
  lemma DecidingCommitIsExact(s: State, db: Db, keyOf: KeyFn, labels: seq<Label>, l: Label, r: nat)
    requires Reached(s, db, keyOf, labels) && RunEnabled(s, l) && Decides(s, l, r)
    ensures var s' := Next(s, l);
            && s'.db.published.Some? && s'.db.published.value.run == Some(r)
            && (forall pk :: pk in s.runs[r].tx.grants || pk !in s.runs[r].touched ==>
                  AgreesAt(s'.db.published.value.listing, Listing(s'.db), pk))
    ensures Next(s, l).db.grants.Keys == s.db.grants.Keys
    ensures forall pk :: pk in s.db.grants ==>
              Softer(s.db.grants[pk], Next(s, l).db.grants[pk])
              && (pk !in s.runs[r].active ==> Next(s, l).db.grants[pk] == s.db.grants[pk])
              && Next(s, l).db.grants[pk] == if pk in s.runs[r].tx.grants then s.runs[r].tx.grants[pk] else s.db.grants[pk]
  {
    ReachedRun(s, db, keyOf, labels, r);
    var run := s.runs[r];
    assert ListsExactly(s.db, run, run.tx.published.value.listing);
    var grants := s.db.grants + run.tx.grants;
    assert grants + map[] == grants;
    assert Next(s, l).db.grants == grants;
    assert forall pk :: pk in run.tx.grants ==> pk in s.db.grants;
    assert grants.Keys == s.db.grants.Keys;
    assert Listing(Next(s, l).db) == Listing(View(s.db, run.tx));
    assert Next(s, l).db.published == run.tx.published;
  }

  /** ... in the fields of rows and records. */
  lemma DecidingCommitInFields(s: State, db: Db, keyOf: KeyFn, labels: seq<Label>, l: Label, r: nat)
    requires Reached(s, db, keyOf, labels) && RunEnabled(s, l) && Decides(s, l, r)
    ensures var s' := Next(s, l);
            && s'.db.published.Some?
            && forall pk :: pk in s.runs[r].tx.grants || pk !in s.runs[r].touched ==>
                 ListedInFields(s'.db.grants, s'.db.cbsds, s'.db.published.value.listing, pk)
  {
    DecidingCommitIsExact(s, db, keyOf, labels, l, r);
    var s' := Next(s, l);
    forall pk | pk in s.runs[r].tx.grants || pk !in s.runs[r].touched
      ensures ListedInFields(s'.db.grants, s'.db.cbsds, s'.db.published.value.listing, pk)
    {
      ListingExactly(s'.db, s'.db.published.value.listing, pk);
    }
  }

  /** A power reduction that takes effect on the row. */
  predicate Reduces(row: Row, d: Decision) {
    && !row.terminated && !PeerGrant(d.grantId) && d.action == ReducePower && d.eirp.Some?
    && (row.maxEirp.Some? ==> row.maxEirp.value > d.eirp.value + EIRP_SLACK)
  }

  /** What the dump says of a grant after a decision that has not ended it: what it said before, but for
      a reduced power where no request can be read. */
  lemma DumpAfterDecision(row: Row, d: Decision, now: int)
    requires !Decided(row, d, now).terminated
    ensures RecordOf(Decided(row, d, now)) ==
            if Reduces(row, d) && row.requestedEirp.None? then RecordOf(row).(eirp := d.eirp) else RecordOf(row)
  {
    DecidedIsMilder(row, d, now);
  }

  /** After a reduction the dump shows the power now in force exactly when no request can be read from
      the row, or the request was for just that power. */
  lemma ReductionShowsExactly(row: Row, d: Decision, now: int)
    requires Reduces(row, d)
    ensures Decided(row, d, now).maxEirp == d.eirp
    ensures RecordOf(Decided(row, d, now)).eirp == Decided(row, d, now).maxEirp
            <==> row.requestedEirp.None? || row.requestedEirp == d.eirp
  {
    DumpAfterDecision(row, d, now);
  }

  /** The drift check is sound: at the deciding commit the protected rows are those of the moment the
      counters were read, so they are the frozen rows exactly when nothing slipped in between the two
      reads of the freeze. */
  lemma DriftCheckIsSound(s: State, db: Db, keyOf: KeyFn, labels: seq<Label>, l: Label, r: nat)
    requires Reached(s, db, keyOf, labels) && RunEnabled(s, l) && Decides(s, l, r)
    ensures SameProtected(s.runs[r].atCounters, Next(s, l).db.store)
    ensures SameProtected(s.runs[r].frozen, Next(s, l).db.store) <==> SameProtected(s.runs[r].frozen, s.runs[r].atCounters)
  {
    ReachedRun(s, db, keyOf, labels, r);
    RunStepReach(s.db, s.runs[r], l);
  }

  /** A freeze whose two reads are adjacent is the atomic one. */
  lemma AdjacentReadsAgree(s: State, r: nat)
    requires Enabled(s, FreezeRows(r)) && r in s.runs
    ensures Enabled(Next(s, FreezeRows(r)), FreezeCounters(r))
    ensures var run := Next(Next(s, FreezeRows(r)), FreezeCounters(r)).runs[r]; SameProtected(run.frozen, run.atCounters)
    ensures var run := Next(Next(s, FreezeRows(r)), FreezeCounters(r)).runs[r];
            && run.frozen == s.db.store && run.generation.peers == s.db.peers && run.generation.counters == s.db.store.counters
            && forall pk :: pk in run.active <==> Reported(s.db.grants, s.db.cbsds, pk)
  {
  }

  /** The check refuses exactly when a peer's generation or a counter differs from the frozen one, and
      then changes nothing but the mark that an evaluation is due. */
  lemma CheckExactly(s: State, db: Db, keyOf: KeyFn, labels: seq<Label>, r: nat, ds: seq<Decision>)
    requires Reached(s, db, keyOf, labels) && Enabled(s, Check(r, ds))
    ensures var s', generation := Next(s, Check(r, ds)), s.runs[r].generation;
            if s.db.peers == generation.peers && s.db.store.counters == generation.counters
            then s'.runs[r].phase == Deciding(ds) && s'.db == s.db
            else s'.runs[r].phase == Drifted && s'.db == s.db.(reeval := true)
  {
    ReachedRun(s, db, keyOf, labels, r);
    assert s.db.grants + map[] == s.db.grants;
  }

  /** A decision of the run on the table as its transaction sees it, said in the fields of the row. */
  lemma ApplyInFields(s: State, r: nat, now: int)
    requires Enabled(s, Apply(r, now))
    ensures var run, d := s.runs[r], s.runs[r].phase.ds[0];
            && Next(s, Apply(r, now)).db == s.db
            && exists more ::
                 StepInFields(s.db.grants + run.tx.grants, s.db.grants + Next(s, Apply(r, now)).runs[r].tx.grants, d, now, more)
  {
    var run, d := s.runs[r], s.runs[r].phase.ds[0];
    var seen := s.db.grants + run.tx.grants;
    var after := s.db.grants + Next(s, Apply(r, now)).runs[r].tx.grants;
    if d.pk.Some? && d.pk.value in seen {
      var more := DecidedExactly(seen[d.pk.value], d, now);
      assert after == seen[d.pk.value := Decided(seen[d.pk.value], d, now)];
      assert StepInFields(seen, after, d, now, more);
    } else {
      assert StepInFields(seen, after, d, now, 0);
    }
  }

  /** Decisions, dump and stamp share one commit exactly when the schedule's own bookkeeping does not
      commit first, that is unless the schedule is on and the clock inside its window. */
  lemma OneCommitExactly(s: State, db: Db, keyOf: KeyFn, labels: seq<Label>, r: nat, today: int, inWindow: bool)
    requires Reached(s, db, keyOf, labels) && In(s, r, Published)
    ensures Decides(s, Mark(r, today, inWindow), r) <==> s.db.scheduleOn && inWindow
    ensures Decides(s, Mark(r, today, inWindow), r) ==>
              var s' := Next(s, Mark(r, today, inWindow));
              && s'.runs[r].kept == UNSTAMPED && s'.db.stamp == s.db.stamp
              && Enabled(s', Crash(r)) && Next(s', Crash(r)).runs[r].kept == UNSTAMPED && Next(s', Crash(r)).db == s'.db
  {
    ReachedRun(s, db, keyOf, labels, r);
  }

  lemma StampCommitExactly(s: State, db: Db, keyOf: KeyFn, labels: seq<Label>, r: nat)
    requires Reached(s, db, keyOf, labels) && In(s, r, Stamped)
    ensures Decides(s, Finish(r), r) <==> !s.runs[r].kept.decisions
    ensures Next(s, Finish(r)).runs[r].kept == ALL_KEPT && Next(s, Finish(r)).db.stamp == Some(Stamp(r, s.runs[r].generation))
  {
    ReachedRun(s, db, keyOf, labels, r);
  }

  // --------------------------------------------------------- stamp and dump

  ghost predicate PublishedBy(db: Db, r: nat) {
    db.published.Some? && db.published.value.run == Some(r)
  }

  /** This step puts another dump in the place of the one of run r. */
  ghost predicate Overtakes(s: State, l: Label, r: nat) {
    l.OtherDump? || (RunOf(l).Some? && RunOf(l).value != r && Decides(s, l, RunOf(l).value))
  }

  ghost predicate Overtaken(s: State, labels: seq<Label>, r: nat)
    requires Legal(s, labels)
    decreases |labels|
  {
    labels != [] && (Overtakes(s, labels[0], r) || Overtaken(Next(s, labels[0]), labels[1..], r))
  }

  lemma RunStepPublishes(s: State, l: Label, u: nat)
    requires Inv(s) && RunEnabled(s, l) && RunOf(l) == Some(u)
    ensures if Decides(s, l, u) then PublishedBy(Next(s, l).db, u) else Next(s, l).db.published == s.db.published
  {
    assert RunOk(s.db, u, s.runs[u]);
  }

  lemma KeptGrows(s: State, l: Label, r: nat)
    requires Enabled(s, l) && r in s.runs && s.runs[r].kept.decisions
    ensures r in Next(s, l).runs && Next(s, l).runs[r].kept.decisions
  {
  }

  lemma StepPublishedExactly(s: State, l: Label, r: nat)
    requires Inv(s) && Enabled(s, l) && r in s.runs && s.runs[r].kept.decisions
    ensures PublishedBy(Next(s, l).db, r) <==> PublishedBy(s.db, r) && !Overtakes(s, l, r)
    ensures r in Next(s, l).runs && Next(s, l).runs[r].kept.decisions
  {
    KeptGrows(s, l, r);
    if RunOf(l).Some? {
      RunStepPublishes(s, l, RunOf(l).value);
    }
  }

  /** A published dump stays the current one exactly as long as nobody publishes another. */
  lemma {:induction false} StaysPublishedExactly(s: State, labels: seq<Label>, r: nat)
    requires Inv(s) && Legal(s, labels) && r in s.runs && s.runs[r].kept.decisions
    ensures PublishedBy(After(s, labels).db, r) <==> PublishedBy(s.db, r) && !Overtaken(s, labels, r)
    decreases |labels|
  {
    if labels != [] {
      StepPublishedExactly(s, labels[0], r);
      StepKeepsInv(s, labels[0]);
      StaysPublishedExactly(Next(s, labels[0]), labels[1..], r);
    }
  }

  /** Whose dump is current when a run writes its stamp: its own, if the stamp's commit carries the dump
      too; and if the schedule's bookkeeping has committed the dump at state s, its own exactly unless
      another run or an administrator has published in between. */
  lemma StampMatchesDumpExactly(s: State, db: Db, keyOf: KeyFn, past: seq<Label>, labels: seq<Label>, r: nat)
    requires Reached(s, db, keyOf, past) && Legal(s, labels) && r in s.runs && In(After(s, labels), r, Stamped)
    ensures var end := Next(After(s, labels), Finish(r));
            && end.db.stamp.Some? && end.db.stamp.value.run == r
            && (!After(s, labels).runs[r].kept.decisions ==> PublishedBy(end.db, r))
            && (s.runs[r].kept.decisions && PublishedBy(s.db, r) ==> (PublishedBy(end.db, r) <==> !Overtaken(s, labels, r)))
  {
    ReachedInv(s, db, keyOf, past);
    RunKeepsInv(s, labels);
    var mid := After(s, labels);
    assert RunOk(mid.db, r, mid.runs[r]);
    RunStepPublishes(mid, Finish(r), r);
    if s.runs[r].kept.decisions {
      StaysPublishedExactly(s, labels, r);
      KeptStays(s, labels, r);
    }
  }

  lemma {:induction false} KeptStays(s: State, labels: seq<Label>, r: nat)
    requires Inv(s) && Legal(s, labels) && r in s.runs && s.runs[r].kept.decisions
    ensures r in After(s, labels).runs && After(s, labels).runs[r].kept.decisions
    decreases |labels|
  {
    if labels != [] {
      StepPublishedExactly(s, labels[0], r);
      StepKeepsInv(s, labels[0]);
      KeptStays(Next(s, labels[0]), labels[1..], r);
    }
  }
}
