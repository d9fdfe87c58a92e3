/** The grant table under any interleaving of grant, heartbeat, relinquishment, deregistration,
    registration and daily-activities transactions (services/grant_service.py, heartbeat_service.py,
    relinquishment_service.py, deregistration_service.py, registration_service.py, cpas_service.py,
    concurrency.py), on a database with row locks. */
module GrantProtocol {
  import opened Wrappers
  import opened Spectrum
  import opened SpectrumInquiry
  import opened Lifecycle
  import opened Heartbeat
  import opened Decisions

  /** A row and `beat`, the clock reading its transmit time was computed from. */
  datatype Entry = Entry(row: Row, beat: int)

  type Grants = map<int, Entry>

  /** A grant request that has passed the checks made before any lock is taken. */
  datatype Plan = Plan(grantId: string, cbsd: string, range: Range, channel: Kind, palId: Option<string>, cap: Option<int>,
                       maxEirp: real, nearDpa: bool, earlier: seq<Range>)

  datatype Op =
    | GrantOp(plan: Plan)
    | HeartbeatOp(cbsd: string, pk: int, req: Request)
    | RelinquishOp(cbsd: string, pk: int)
    | DeregisterOp(cbsd: string)
    | RegisterOp(cbsd: string)
    | CpasOp(decisions: seq<Decision>)

  datatype Phase =
    | Started
    | Checked
    | Timed(expire: int)
    | Inserting(entry: Entry)
    | Beating(stage: Stage)
    | Applying(i: nat)
    | Complete

  /** `local` holds the rows this transaction has locked, with its uncommitted changes. */
  datatype Thread = Thread(op: Op, iap: bool, keyed: bool, local: Grants, phase: Phase)

  datatype State = State(now: int, cbsds: set<string>, grants: Grants, nextPk: int, pals: map<string, PalRow>, threads: map<nat, Thread>)

  datatype Label =
    | Tick(seconds: nat)
    | SetPal(id: string, pal: PalRow)
    | DropPal(id: string)
    | Begin(tid: nat, op: Op)
    | TakeIap(tid: nat)
    | TakeCbsd(tid: nat)
    | LockRow(tid: nat, pk: int)
    | Work(tid: nat, pk: int)
    | Finish(tid: nat)
    | Commit(tid: nat)
    | Interrupt(tid: nat)
    | Crash(tid: nat)

  function Init(now: int, pals: map<string, PalRow>): (s: State) {
    State(now, {}, map[], 0, pals, map[])
  }

  function CbsdOf(op: Op): (c: Option<string>) {
    match op
    case GrantOp(plan) => Some(plan.cbsd)
    case HeartbeatOp(c, _, _) => Some(c)
    case RelinquishOp(c, _) => Some(c)
    case DeregisterOp(c) => Some(c)
    case RegisterOp(c) => Some(c)
    case CpasOp(_) => None
  }

  predicate NeedsIap(op: Op) {
    op.GrantOp? || op.CpasOp?
  }

  /** The licence end the grant request reads from the PAL record. */
  function LicenseEnd(pal: PalRow): (end: Option<int>) {
    if pal.json.Some? then pal.json else pal.column
  }

  /** The request validation and channel ruling that precede the locks. */
  predicate Admissible(plan: Plan, pals: map<string, PalRow>) {
    && CBRS_LOW_HZ <= plan.range.low < plan.range.high <= CBRS_HIGH_HZ
    && (plan.channel == PAL ==> plan.palId.Some? && plan.palId.value in pals && plan.cap == LicenseEnd(pals[plan.palId.value]))
    && (plan.channel == GAA ==> plan.palId.None? && plan.cap.None?)
  }

  /** All the locks the operation takes before it reads tables. */
  predicate Ready(t: Thread) {
    (NeedsIap(t.op) ==> t.iap) && (CbsdOf(t.op).Some? ==> t.keyed)
  }

  /** The rows an operation may lock. */
  predicate Wants(t: Thread, pk: int, row: Row) {
    match t.op
    case GrantOp(_) => false
    case HeartbeatOp(c, p, _) => pk == p && row.cbsd == c
    case RelinquishOp(c, p) => pk == p && row.cbsd == c
    case DeregisterOp(c) => row.cbsd == c
    case RegisterOp(c) => row.cbsd == c
    case CpasOp(ds) => t.phase.Applying? && t.phase.i < |ds| && ds[t.phase.i].pk == Some(pk)
  }

  predicate RowLocked(s: State, pk: int) {
    exists t :: t in s.threads && pk in s.threads[t].local
  }

  predicate CbsdLocked(s: State, c: string) {
    exists t :: t in s.threads && s.threads[t].keyed && CbsdOf(s.threads[t].op) == Some(c)
  }

  predicate IapLocked(s: State) {
    exists t :: t in s.threads && s.threads[t].iap
  }

  /** The conflict test of a grant request: live rows of the CBSD, and ranges granted earlier in the batch. */
  predicate Conflicts(grants: Grants, plan: Plan) {
    || (exists pk :: pk in grants && grants[pk].row.cbsd == plan.cbsd && !grants[pk].row.terminated
                     && Overlaps(Range(grants[pk].row.low, grants[pk].row.high), plan.range))
    || (exists r :: r in plan.earlier && Overlaps(r, plan.range))
  }

  function NewEntry(plan: Plan, expire: int, now: int): (e: Entry) {
    Entry(Row(plan.grantId, plan.cbsd, plan.range.low, plan.range.high, plan.channel, plan.palId, plan.cap, Some(plan.maxEirp),
              Some(plan.maxEirp), expire,
              TransmitExpireTime(now, plan.nearDpa, expire), Some(GRANTED), false, false), now)
  }

  // ------------------------------------------------------------------- steps

  predicate CanWork(s: State, tid: nat, pk: int)
    requires tid in s.threads
  {
    var t := s.threads[tid];
    && Ready(t)
    && match t.op
       case GrantOp(plan) =>
         (t.phase == Started && plan.cbsd in s.cbsds && !Conflicts(s.grants, plan)) || t.phase == Checked || t.phase.Timed?
       case HeartbeatOp(_, p, _) => pk == p && pk in t.local && t.phase.Beating? && !t.phase.stage.Finished?
       case RelinquishOp(_, p) => pk == p && pk in t.local && t.phase == Started
       case DeregisterOp(_) => pk in t.local && t.phase == Started
       case RegisterOp(_) => pk in t.local && t.phase == Started
       case CpasOp(ds) =>
         && t.phase.Applying? && t.phase.i < |ds|
         && (ds[t.phase.i].pk == Some(pk) && pk in s.grants ==> pk in t.local)
         && (ds[t.phase.i].pk.Some? ==> ds[t.phase.i].pk == Some(pk))
  }

  function StagedEntry(e: Entry, stage: Stage, req: Request, pals: map<string, PalRow>, now: int): (r: Entry) {
    Entry(Advance(e.row, stage, req, pals, now).0, if stage == Transmit then now else e.beat)
  }

  function Changed(t: Thread, pk: int, row: Row): (r: Thread)
    requires pk in t.local
  {
    t.(local := t.local[pk := t.local[pk].(row := row)])
  }

  function Worked(s: State, tid: nat, pk: int): (t': Thread)
    requires tid in s.threads && CanWork(s, tid, pk)
  {
    var t := s.threads[tid];
    match t.op
    case GrantOp(plan) =>
      (match t.phase
       case Checked => t.(phase := Timed(GrantExpireTime(s.now, plan.cap)))
       case Timed(expire) => t.(phase := Inserting(NewEntry(plan, expire, s.now)))
       case _ => t.(phase := Checked))
    case HeartbeatOp(_, _, req) =>
      var e := t.local[pk];
      t.(local := t.local[pk := StagedEntry(e, t.phase.stage, req, s.pals, s.now)],
         phase := Beating(Advance(e.row, t.phase.stage, req, s.pals, s.now).1))
    case RelinquishOp(_, _) =>
      var row := t.local[pk].row;
      Changed(t, pk, if row.terminated then row else AfterEvent(row, Relinquish, IDS, s.now)).(phase := Complete)
    case DeregisterOp(_) => Changed(t, pk, AfterEvent(t.local[pk].row, Terminate, IDS, s.now))
    case RegisterOp(_) =>
      var row := t.local[pk].row;
      Changed(t, pk, if row.terminated then row else AfterEvent(row, Terminate, IDS, s.now))
    case CpasOp(ds) =>
      var after := if pk in t.local && ds[t.phase.i].pk == Some(pk) then Changed(t, pk, Decided(t.local[pk].row, ds[t.phase.i], s.now)) else t;
      after.(phase := Applying(t.phase.i + 1))
  }

  /** The thread has locked every row of the CBSD and has been through all of them: a row that the
      terminate event leaves is dead, and on a dead row it would change nothing. */
  predicate AllRowsDone(t: Thread, grants: Grants, c: string, now: int) {
    forall pk :: pk in grants && grants[pk].row.cbsd == c ==> pk in t.local && Dead(t.local[pk].row, now)
  }

  predicate CanFinish(s: State, tid: nat)
    requires tid in s.threads
  {
    var t := s.threads[tid];
    && Ready(t)
    && match t.op
       case DeregisterOp(c) => t.phase == Started && c in s.cbsds && AllRowsDone(t, s.grants, c, s.now)
       case RegisterOp(c) => t.phase == Started && AllRowsDone(t, s.grants, c, s.now)
       case CpasOp(ds) => t.phase == Applying(|ds|)
       case _ => false
  }

  /** A commit writes the locked rows back, inserts a new grant, or completes a (de)registration. */
  function Committed(s: State, tid: nat): (s': State)
    requires tid in s.threads
  {
    var t := s.threads[tid];
    var written := s.(grants := s.grants + t.local, threads := s.threads - {tid});
    match t.op
    case GrantOp(_) =>
      if t.phase.Inserting? then
        written.(grants := written.grants[s.nextPk := t.phase.entry], nextPk := s.nextPk + 1)
      else written
    case DeregisterOp(c) =>
      if t.phase == Complete then written.(grants := s.grants - t.local.Keys, cbsds := s.cbsds - {c}) else written
    case RegisterOp(c) => if t.phase == Complete then written.(cbsds := s.cbsds + {c}) else written
    case _ => written
  }

  function StartPhase(op: Op): (p: Phase) {
    match op
    case HeartbeatOp(_, _, _) => Beating(Gate)
    case CpasOp(_) => Applying(0)
    case _ => Started
  }

  predicate Enabled(s: State, l: Label) {
    match l
    case Tick(_) => true
    case SetPal(_, _) => true
    case DropPal(_) => true
    case Begin(tid, op) => tid !in s.threads && (op.GrantOp? ==> Admissible(op.plan, s.pals))
    case TakeIap(tid) => tid in s.threads && NeedsIap(s.threads[tid].op) && !IapLocked(s)
    case TakeCbsd(tid) =>
      && tid in s.threads && CbsdOf(s.threads[tid].op).Some? && !CbsdLocked(s, CbsdOf(s.threads[tid].op).value)
      && (NeedsIap(s.threads[tid].op) ==> s.threads[tid].iap)
    case LockRow(tid, pk) =>
      tid in s.threads && Ready(s.threads[tid]) && pk in s.grants && Wants(s.threads[tid], pk, s.grants[pk].row) && !RowLocked(s, pk)
    case Work(tid, pk) => tid in s.threads && CanWork(s, tid, pk)
    case Finish(tid) => tid in s.threads && CanFinish(s, tid)
    case Commit(tid) => tid in s.threads && (s.threads[tid].op.CpasOp? ==> s.threads[tid].phase == Complete) && !MidHeartbeat(s.threads[tid])
    // An exception in a per-item handler: its `finally` clause commits what is done so far.
    case Interrupt(tid) => tid in s.threads && !s.threads[tid].op.CpasOp?
    // A lost process, or an exception in the daily activities: rolled back.
    case Crash(tid) => tid in s.threads
  }

  /** A handler that neither failed nor answered yet. */
  predicate MidHeartbeat(t: Thread) {
    t.local != map[] && t.phase.Beating? && !t.phase.stage.Finished?
  }

  function Next(s: State, l: Label): (s': State)
    requires Enabled(s, l)
  {
    match l
    case Tick(d) => s.(now := s.now + d)
    case SetPal(id, pal) => s.(pals := s.pals[id := pal])
    case DropPal(id) => s.(pals := s.pals - {id})
    case Begin(tid, op) => s.(threads := s.threads[tid := Thread(op, false, false, map[], StartPhase(op))])
    case TakeIap(tid) => s.(threads := s.threads[tid := s.threads[tid].(iap := true)])
    case TakeCbsd(tid) => s.(threads := s.threads[tid := s.threads[tid].(keyed := true)])
    case LockRow(tid, pk) =>
      s.(threads := s.threads[tid := s.threads[tid].(local := s.threads[tid].local[pk := s.grants[pk]])])
    case Work(tid, pk) => s.(threads := s.threads[tid := Worked(s, tid, pk)])
    case Finish(tid) => s.(threads := s.threads[tid := s.threads[tid].(phase := Complete)])
    case Commit(tid) => Committed(s, tid)
    case Interrupt(tid) => Committed(s, tid)
    case Crash(tid) => s.(threads := s.threads - {tid})
  }

  predicate Legal(s: State, run: seq<Label>)
    decreases |run|
  {
    run == [] || (Enabled(s, run[0]) && Legal(Next(s, run[0]), run[1..]))
  }

  function After(s: State, run: seq<Label>): (s': State)
    requires Legal(s, run)
    decreases |run|
  {
    if run == [] then s else After(Next(s, run[0]), run[1..])
  }

  lemma {:induction false} RunThenRun(s: State, first: seq<Label>, second: seq<Label>)
    requires Legal(s, first) && Legal(After(s, first), second)
    ensures Legal(s, first + second) && After(s, first + second) == After(After(s, first), second)
    decreases |first|
  {
    if first == [] {
      assert first + second == second;
    } else {
      assert (first + second)[1..] == first[1..] + second;
      RunThenRun(Next(s, first[0]), first[1..], second);
    }
  }

  ghost predicate RunsTo(s: State, run: seq<Label>, end: State) {
    Legal(s, run) && After(s, run) == end
  }

  lemma Join(s: State, first: seq<Label>, mid: State, second: seq<Label>, end: State) returns (run: seq<Label>)
    requires RunsTo(s, first, mid) && RunsTo(mid, second, end)
    ensures RunsTo(s, run, end)
  {
    RunThenRun(s, first, second);
    run := first + second;
  }

  lemma Then(s: State, run: seq<Label>, mid: State, l: Label, end: State) returns (longer: seq<Label>)
    requires RunsTo(s, run, mid) && Enabled(mid, l) && Next(mid, l) == end
    ensures RunsTo(s, longer, end) && longer == run + [l]
  {
    assert [l][1..] == [];
    assert Legal(mid, [l]);
    RunThenRun(s, run, [l]);
    longer := run + [l];
  }

  // --------------------------------------------------------------- invariant

  /** What holds of every row, committed or not. */
  predicate Sound(e: Entry, now: int) {
    && CBRS_LOW_HZ <= e.row.low < e.row.high <= CBRS_HIGH_HZ
    && e.row.raw.Some? && e.row.raw != Some(REQUESTED) && FlagsAgree(e.row)
    && (e.row.raw == Some(EXPIRED) ==> e.row.expire <= now)
    && e.row.expire <= now + DEFAULT_GRANT_DURATION_SEC
    && e.beat <= now && e.row.tx <= e.beat + 240
  }

  /** An uncommitted copy keeps the identity, spectrum and licence of its row and never clears its
      terminated flag. */
  predicate Follows(e: Entry, copy: Entry) {
    && e.row.grantId == copy.row.grantId && e.row.cbsd == copy.row.cbsd && e.row.low == copy.row.low && e.row.high == copy.row.high
    && e.row.channel == copy.row.channel && e.row.palId == copy.row.palId
    && (e.row.terminated ==> copy.row.terminated)
    && (e.row.raw == Some(TERMINATED) || e.row.raw == Some(RELINQUISHED) ==> copy.row.raw == e.row.raw)
  }

  predicate Within(row: Row) {
    row.tx <= row.expire
  }

  /** The stages of a heartbeat that have not touched a time yet. */
  predicate Untimed(phase: Phase) {
    phase.Beating? && phase.stage in {Gate, Federal, Expiry, Expiring, Incumbent, Renewal}
  }

  /** Between renewal and new transmit time: a renewal gives at least until the old transmit time, or
      exactly the licence end it has stored with the grant. */
  predicate BetweenTimes(req: Request, row: Row, copy: Row) {
    && copy.tx == row.tx
    && (!req.renew ==> copy.expire == row.expire)
    && (req.renew ==>
          && (copy.channel == PAL ==> copy.storedCap.Some? && copy.expire <= copy.storedCap.value)
          && (copy.expire >= row.tx || (copy.channel == PAL && copy.storedCap == Some(copy.expire))))
  }

  /** Only a heartbeat moves times, and only between renewal and transmit time may they cross. */
  predicate TimesFollow(t: Thread, row: Row, copy: Row) {
    && (!t.op.HeartbeatOp? || Untimed(t.phase) ==> copy.expire == row.expire && copy.tx == row.tx)
    && (t.op.HeartbeatOp? && t.phase == Beating(Renewal) ==> t.op.req.renew)
    && (t.op.HeartbeatOp? && t.phase == Beating(Transmit) ==> BetweenTimes(t.op.req, row, copy))
    && (t.phase != Beating(Transmit) && Within(row) ==> Within(copy))
  }

  ghost predicate CopiesOk(t: Thread, grants: Grants, now: int) {
    && (t.local != map[] ==> Ready(t))
    && forall pk :: pk in t.local ==>
         && pk in grants && Sound(t.local[pk], now) && Follows(grants[pk], t.local[pk])
         && (CbsdOf(t.op).Some? ==> t.local[pk].row.cbsd == CbsdOf(t.op).value)
         && TimesFollow(t, grants[pk].row, t.local[pk].row)
  }

  predicate Heard(row: Row) {
    row.raw.Some? && (Live(row.raw.value) || row.raw == Some(EXPIRED))
  }

  predicate PlanOk(plan: Plan, phase: Phase, now: int) {
    && CBRS_LOW_HZ <= plan.range.low < plan.range.high <= CBRS_HIGH_HZ
    && (phase == Started || phase == Checked
        || (phase.Timed? && phase.expire <= now + DEFAULT_GRANT_DURATION_SEC)
        || (phase.Inserting? && Sound(phase.entry, now) && Within(phase.entry.row) && !phase.entry.row.terminated
            && phase.entry.row.cbsd == plan.cbsd && phase.entry.row.low == plan.range.low && phase.entry.row.high == plan.range.high))
  }

  ghost predicate PhaseOk(t: Thread, grants: Grants, cbsds: set<string>, now: int) {
    match t.op
    case GrantOp(plan) =>
      && t.local == map[] && PlanOk(plan, t.phase, now)
      && (t.phase != Started ==> Ready(t) && plan.cbsd in cbsds && !Conflicts(grants, plan))
    case HeartbeatOp(_, p, _) =>
      && t.phase.Beating? && t.local.Keys <= {p}
      && (t.phase.stage != Gate && !t.phase.stage.Finished? ==> p in t.local && Heard(t.local[p].row))
      && (t.phase.stage == Expiring ==> t.local[p].row.expire <= now)
    case RelinquishOp(_, _) => true
    case DeregisterOp(c) => t.phase == Started || (t.phase == Complete && Ready(t) && AllRowsDone(t, grants, c, now))
    case RegisterOp(c) => t.phase == Started || (t.phase == Complete && Ready(t) && AllRowsDone(t, grants, c, now))
    case CpasOp(_) => t.phase == Complete || t.phase.Applying?
  }

  ghost predicate ThreadOk(t: Thread, grants: Grants, cbsds: set<string>, now: int) {
    CopiesOk(t, grants, now) && PhaseOk(t, grants, cbsds, now)
  }

  /** No lock has two holders: process-wide admission, per-CBSD, per-row. */
  ghost predicate Exclusive(threads: map<nat, Thread>) {
    && (forall t, u :: t in threads && u in threads && t != u ==> !(threads[t].iap && threads[u].iap))
    && (forall t, u :: t in threads && u in threads && t != u && threads[t].keyed && threads[u].keyed ==>
                         CbsdOf(threads[t].op) != CbsdOf(threads[u].op) || CbsdOf(threads[t].op).None?)
    && (forall t, u, pk :: t in threads && u in threads && t != u && pk in threads[t].local ==> pk !in threads[u].local)
  }

  predicate RowApart(a: Row, b: Row) {
    a.cbsd == b.cbsd && !a.terminated && !b.terminated ==> a.high <= b.low || b.high <= a.low
  }

  /** Live grants of one CBSD do not share spectrum. */
  ghost predicate SpectrumApart(grants: Grants) {
    forall p, q :: p in grants && q in grants && p != q ==> RowApart(grants[p].row, grants[q].row)
  }

  ghost predicate RowsOk(grants: Grants, cbsds: set<string>, nextPk: int, now: int) {
    forall pk :: pk in grants ==> pk < nextPk && Sound(grants[pk], now) && grants[pk].row.cbsd in cbsds
  }

  ghost predicate Inv(s: State) {
    && RowsOk(s.grants, s.cbsds, s.nextPk, s.now) && SpectrumApart(s.grants) && Exclusive(s.threads)
    && forall t :: t in s.threads ==> ThreadOk(s.threads[t], s.grants, s.cbsds, s.now)
  }

  lemma ThreadLater(t: Thread, grants: Grants, cbsds: set<string>, now: int, later: int)
    requires ThreadOk(t, grants, cbsds, now) && now <= later
    ensures ThreadOk(t, grants, cbsds, later)
  {
    forall pk | pk in t.local && Dead(t.local[pk].row, now) ensures Dead(t.local[pk].row, later) {
      DeadWithTime(t.local[pk].row, now, later);
    }
  }

  lemma StageKeeps(e: Entry, stage: Stage, req: Request, pals: map<string, PalRow>, now: int)
    requires Sound(e, now)
    requires stage != Gate && !stage.Finished? ==> Heard(e.row)
    requires stage == Expiring ==> e.row.expire <= now
    ensures Sound(StagedEntry(e, stage, req, pals, now), now)
    ensures Follows(e, StagedEntry(e, stage, req, pals, now))
    ensures var after := Advance(e.row, stage, req, pals, now);
            && (after.1 != Gate || stage == Gate)
            && (after.1 != Gate && !after.1.Finished? ==> Heard(after.0))
            && (after.1 == Expiring ==> after.0.expire <= now)
  {
  }

  lemma RenewalTimes(req: Request, row: Row, e: Entry, pals: map<string, PalRow>, now: int)
    requires req.renew && Sound(e, now) && e.row.expire == row.expire && e.row.tx == row.tx && ComputeRenewal(e.row, pals, now).Ok?
    ensures BetweenTimes(req, row, Renewed(e.row, pals, ComputeRenewal(e.row, pals, now).value))
  {
    RenewalBounds(e.row, pals, now);
  }

  /** How a stage moves the times of a locked row, compared with the committed one. */
  lemma StageTimes(t: Thread, row: Row, e: Entry, pals: map<string, PalRow>, now: int)
    requires t.op.HeartbeatOp? && t.phase.Beating? && !t.phase.stage.Finished? && Sound(e, now) && TimesFollow(t, row, e.row)
    ensures var after := Advance(e.row, t.phase.stage, t.op.req, pals, now);
            TimesFollow(t.(phase := Beating(after.1)), row, after.0)
  {
    match t.phase.stage
    case Renewal =>
      if ComputeRenewal(e.row, pals, now).Ok? {
        RenewalTimes(t.op.req, row, e, pals, now);
      }
    case Transmit =>
    case Authorizing =>
    case _ => UntimedStage(t, row, e, pals, now);
  }

  lemma UntimedStage(t: Thread, row: Row, e: Entry, pals: map<string, PalRow>, now: int)
    requires t.op.HeartbeatOp? && t.phase.Beating? && t.phase.stage in {Gate, Federal, Expiry, Expiring, Incumbent}
    requires TimesFollow(t, row, e.row)
    ensures var after := Advance(e.row, t.phase.stage, t.op.req, pals, now);
            TimesFollow(t.(phase := Beating(after.1)), row, after.0)
  {
  }

  lemma EventKeeps(e: Entry, event: GrantEvent, payload: set<string>, now: int)
    requires Sound(e, now) && event in {Terminate, Suspend, Relinquish}
    ensures Sound(e.(row := AfterEvent(e.row, event, payload, now)), now)
    ensures Follows(e, e.(row := AfterEvent(e.row, event, payload, now)))
  {
  }

  lemma DecidedKeeps(e: Entry, d: Decision, now: int)
    requires Sound(e, now)
    ensures Sound(e.(row := Decided(e.row, d, now)), now)
    ensures Follows(e, e.(row := Decided(e.row, d, now)))
  {
    EventKeeps(e, Terminate, PAYLOAD, now);
    EventKeeps(e, Suspend, PAYLOAD, now);
  }

  /** One locked row replaced by its successor. */
  lemma ChangedKeeps(t: Thread, grants: Grants, now: int, pk: int, e: Entry, phase: Phase)
    requires CopiesOk(t, grants, now) && pk in t.local && Sound(e, now) && Follows(t.local[pk], e)
    requires phase.Beating? ==> t.local.Keys == {pk}
    requires t.op.HeartbeatOp? <==> phase.Beating?
    requires TimesFollow(t.(phase := phase), grants[pk].row, e.row)
    ensures CopiesOk(t.(local := t.local[pk := e], phase := phase), grants, now)
  {
  }

  // ---------------------------------------------------- every step keeps it

  ghost predicate SameHolder(t: Thread, t': Thread) {
    t'.op == t.op && t'.iap == t.iap && t'.keyed == t.keyed && t'.local.Keys == t.local.Keys
  }

  lemma GrantWorkKeeps(s: State, tid: nat, pk: int)
    requires tid in s.threads && ThreadOk(s.threads[tid], s.grants, s.cbsds, s.now) && CanWork(s, tid, pk) && s.threads[tid].op.GrantOp?
    ensures ThreadOk(Worked(s, tid, pk), s.grants, s.cbsds, s.now) && SameHolder(s.threads[tid], Worked(s, tid, pk))
  {
    var t := s.threads[tid];
    assert ThreadOk(t, s.grants, s.cbsds, s.now);
  }

  lemma HeartbeatWorkKeeps(s: State, tid: nat, pk: int)
    requires tid in s.threads && ThreadOk(s.threads[tid], s.grants, s.cbsds, s.now) && CanWork(s, tid, pk) && s.threads[tid].op.HeartbeatOp?
    ensures ThreadOk(Worked(s, tid, pk), s.grants, s.cbsds, s.now) && SameHolder(s.threads[tid], Worked(s, tid, pk))
  {
    var t := s.threads[tid];
    var e := StagedEntry(t.local[pk], t.phase.stage, t.op.req, s.pals, s.now);
    StageKeeps(t.local[pk], t.phase.stage, t.op.req, s.pals, s.now);
    StageTimes(t, s.grants[pk].row, t.local[pk], s.pals, s.now);
    ChangedKeeps(t, s.grants, s.now, pk, e, Worked(s, tid, pk).phase);
  }

  lemma RowWorkKeeps(s: State, tid: nat, pk: int)
    requires tid in s.threads && ThreadOk(s.threads[tid], s.grants, s.cbsds, s.now) && CanWork(s, tid, pk)
    requires s.threads[tid].op.RelinquishOp? || s.threads[tid].op.DeregisterOp? || s.threads[tid].op.RegisterOp?
    ensures ThreadOk(Worked(s, tid, pk), s.grants, s.cbsds, s.now) && SameHolder(s.threads[tid], Worked(s, tid, pk))
  {
    var t := s.threads[tid];
    EventKeeps(t.local[pk], Relinquish, IDS, s.now);
    EventKeeps(t.local[pk], Terminate, IDS, s.now);
    ChangedKeeps(t, s.grants, s.now, pk, Worked(s, tid, pk).local[pk], Worked(s, tid, pk).phase);
  }

  lemma DecidedTimes(t: Thread, row: Row, copy: Row, d: Decision, now: int, phase: Phase)
    requires t.op.CpasOp? && TimesFollow(t, row, copy)
    ensures TimesFollow(t.(phase := phase), row, Decided(copy, d, now))
  {
    DecidedIsMilder(copy, d, now);
  }

  lemma CpasWorkKeeps(s: State, tid: nat, pk: int)
    requires tid in s.threads && ThreadOk(s.threads[tid], s.grants, s.cbsds, s.now) && CanWork(s, tid, pk) && s.threads[tid].op.CpasOp?
    ensures ThreadOk(Worked(s, tid, pk), s.grants, s.cbsds, s.now) && SameHolder(s.threads[tid], Worked(s, tid, pk))
  {
    var t := s.threads[tid];
    if pk in t.local {
      var d := t.op.decisions[t.phase.i];
      DecidedKeeps(t.local[pk], d, s.now);
      DecidedTimes(t, s.grants[pk].row, t.local[pk].row, d, s.now, Worked(s, tid, pk).phase);
      ChangedKeeps(t, s.grants, s.now, pk, t.local[pk].(row := Decided(t.local[pk].row, d, s.now)), Worked(s, tid, pk).phase);
    }
  }

  lemma WorkKeeps(s: State, tid: nat, pk: int)
    requires Inv(s) && tid in s.threads && CanWork(s, tid, pk)
    ensures ThreadOk(Worked(s, tid, pk), s.grants, s.cbsds, s.now) && SameHolder(s.threads[tid], Worked(s, tid, pk))
  {
    assert ThreadOk(s.threads[tid], s.grants, s.cbsds, s.now);
    match s.threads[tid].op
    case GrantOp(_) => GrantWorkKeeps(s, tid, pk);
    case HeartbeatOp(_, _, _) => HeartbeatWorkKeeps(s, tid, pk);
    case CpasOp(_) => CpasWorkKeeps(s, tid, pk);
    case _ => RowWorkKeeps(s, tid, pk);
  }

  /** Replacing one thread by one that holds no more than it did, or newly holds what nobody else does. */
  lemma ThreadSwap(s: State, tid: nat, t': Thread)
    requires Inv(s) && ThreadOk(t', s.grants, s.cbsds, s.now)
    requires t'.iap ==> forall u :: u in s.threads && u != tid ==> !s.threads[u].iap
    requires t'.keyed && CbsdOf(t'.op).Some? ==>
               forall u :: u in s.threads && u != tid && s.threads[u].keyed ==> CbsdOf(s.threads[u].op) != CbsdOf(t'.op)
    requires forall u, pk :: u in s.threads && u != tid && pk in s.threads[u].local ==> pk !in t'.local
    ensures Inv(s.(threads := s.threads[tid := t']))
  {
  }

  /** The committing thread's writes, seen by another thread. */
  lemma OtherAfterCommit(u: Thread, t: Thread, grants: Grants, grants': Grants, cbsds: set<string>, cbsds': set<string>, now: int)
    requires ThreadOk(u, grants, cbsds, now) && CopiesOk(t, grants, now)
    requires CbsdOf(t.op).Some? && t.keyed && u.keyed ==> CbsdOf(t.op) != CbsdOf(u.op)
    requires forall pk :: pk in t.local ==> pk !in u.local
    requires Effect(t, grants, grants', cbsds, cbsds')
    ensures ThreadOk(u, grants', cbsds', now)
  {
    assert CopiesOk(u, grants', now);
  }

  lemma WrittenFollows(grants: Grants, t: Thread, now: int)
    requires CopiesOk(t, grants, now)
    ensures forall pk :: pk in grants + t.local <==> pk in grants
    ensures forall pk :: pk in grants ==> Follows(grants[pk], (grants + t.local)[pk])
  {
  }

  lemma WrittenRows(s: State, t: Thread)
    requires RowsOk(s.grants, s.cbsds, s.nextPk, s.now) && SpectrumApart(s.grants) && CopiesOk(t, s.grants, s.now)
    ensures RowsOk(s.grants + t.local, s.cbsds, s.nextPk, s.now) && SpectrumApart(s.grants + t.local)
    ensures forall pk :: pk in s.grants + t.local <==> pk in s.grants
    ensures forall pk :: pk in s.grants ==> Follows(s.grants[pk], (s.grants + t.local)[pk])
  {
    forall p, q | p in s.grants && q in s.grants && p != q ensures RowApart((s.grants + t.local)[p].row, (s.grants + t.local)[q].row) {
      assert RowApart(s.grants[p].row, s.grants[q].row);
    }
  }

  lemma CommitKeepsTables(s: State, tid: nat)
    requires tid in s.threads && ThreadOk(s.threads[tid], s.grants, s.cbsds, s.now)
    requires RowsOk(s.grants, s.cbsds, s.nextPk, s.now) && SpectrumApart(s.grants)
    ensures var s' := Committed(s, tid); RowsOk(s'.grants, s'.cbsds, s'.nextPk, s'.now) && SpectrumApart(s'.grants)
  {
    var t := s.threads[tid];
    WrittenRows(s, t);
    if t.op.GrantOp? && t.phase.Inserting? {
      assert s.grants + t.local == s.grants;
      forall pk | pk in s.grants ensures RowApart(s.grants[pk].row, t.phase.entry.row) {
        assert !Conflicts(s.grants, t.op.plan);
      }
    }
  }

  /** What a commit does to the tables, whichever operation commits. */
  ghost predicate Effect(t: Thread, grants: Grants, grants': Grants, cbsds: set<string>, cbsds': set<string>) {
    && (forall pk :: pk in grants && pk !in t.local ==> pk in grants' && grants'[pk] == grants[pk])
    && (forall pk :: pk in grants' ==> pk in grants || (CbsdOf(t.op) == Some(grants'[pk].row.cbsd) && t.keyed))
    && (forall pk :: pk in grants' && pk in grants ==> Follows(grants[pk], grants'[pk]))
    && (forall c :: c in cbsds && c !in cbsds' ==> CbsdOf(t.op) == Some(c) && t.keyed)
    && (CbsdOf(t.op).None? ==> forall pk :: pk in grants ==> pk in grants')
  }

  lemma CommitEffect(s: State, tid: nat)
    requires tid in s.threads && ThreadOk(s.threads[tid], s.grants, s.cbsds, s.now)
    requires RowsOk(s.grants, s.cbsds, s.nextPk, s.now)
    ensures var s' := Committed(s, tid); Effect(s.threads[tid], s.grants, s'.grants, s.cbsds, s'.cbsds)
  {
    var t := s.threads[tid];
    WrittenFollows(s.grants, t, s.now);
    assert s.nextPk !in s.grants;
  }

  lemma OthersAfterCommit(s: State, tid: nat, u: nat)
    requires Inv(s) && tid in s.threads && u in s.threads && u != tid
    ensures var s' := Committed(s, tid); ThreadOk(s.threads[u], s'.grants, s'.cbsds, s'.now)
  {
    var s' := Committed(s, tid);
    assert ThreadOk(s.threads[tid], s.grants, s.cbsds, s.now) && ThreadOk(s.threads[u], s.grants, s.cbsds, s.now);
    CommitEffect(s, tid);
    OtherAfterCommit(s.threads[u], s.threads[tid], s.grants, s'.grants, s.cbsds, s'.cbsds, s.now);
  }

  lemma CommitKeepsInv(s: State, tid: nat)
    requires Inv(s) && tid in s.threads
    ensures Inv(Committed(s, tid))
  {
    assert ThreadOk(s.threads[tid], s.grants, s.cbsds, s.now);
    CommitKeepsTables(s, tid);
    var s' := Committed(s, tid);
    assert s'.threads == s.threads - {tid};
    forall u | u in s'.threads ensures ThreadOk(s'.threads[u], s'.grants, s'.cbsds, s'.now) {
      OthersAfterCommit(s, tid, u);
    }
  }

  lemma TickKeepsInv(s: State, d: nat)
    requires Inv(s)
    ensures Inv(s.(now := s.now + d))
  {
    forall t | t in s.threads ensures ThreadOk(s.threads[t], s.grants, s.cbsds, s.now + d) {
      ThreadLater(s.threads[t], s.grants, s.cbsds, s.now, s.now + d);
    }
  }

  lemma LocksKeepInv(s: State, l: Label)
    requires Inv(s) && Enabled(s, l) && (l.Begin? || l.TakeIap? || l.TakeCbsd?)
    ensures Inv(Next(s, l))
  {
    match l
    case Begin(tid, op) => ThreadSwap(s, tid, Thread(op, false, false, map[], StartPhase(op)));
    case TakeIap(tid) =>
      var t' := s.threads[tid].(iap := true);
      assert ThreadOk(s.threads[tid], s.grants, s.cbsds, s.now);
      ThreadSwap(s, tid, t');
    case TakeCbsd(tid) =>
      var t' := s.threads[tid].(keyed := true);
      assert ThreadOk(s.threads[tid], s.grants, s.cbsds, s.now);
      ThreadSwap(s, tid, t');
  }

  lemma FinishKeepsInv(s: State, tid: nat)
    requires Inv(s) && Enabled(s, Finish(tid))
    ensures Inv(Next(s, Finish(tid)))
  {
    var t := s.threads[tid];
    assert ThreadOk(t, s.grants, s.cbsds, s.now);
    ThreadSwap(s, tid, t.(phase := Complete));
  }

  lemma LockKeepsInv(s: State, tid: nat, pk: int)
    requires Inv(s) && Enabled(s, LockRow(tid, pk))
    ensures Inv(Next(s, LockRow(tid, pk)))
  {
    var t := s.threads[tid];
    assert ThreadOk(t, s.grants, s.cbsds, s.now);
    var t' := t.(local := t.local[pk := s.grants[pk]]);
    assert ThreadOk(t', s.grants, s.cbsds, s.now);
    ThreadSwap(s, tid, t');
  }

  lemma PalKeepsInv(s: State, pals: map<string, PalRow>)
    requires Inv(s)
    ensures Inv(s.(pals := pals))
  {
  }

  lemma WorkKeepsInv(s: State, tid: nat, pk: int)
    requires Inv(s) && Enabled(s, Work(tid, pk))
    ensures Inv(Next(s, Work(tid, pk)))
  {
    WorkKeeps(s, tid, pk);
    ThreadSwap(s, tid, Worked(s, tid, pk));
  }

  lemma RowStepKeepsInv(s: State, l: Label)
    requires Inv(s) && Enabled(s, l) && (l.LockRow? || l.Work? || l.Finish? || l.Commit? || l.Interrupt? || l.Crash?)
    ensures Inv(Next(s, l))
  {
    match l
    case LockRow(tid, pk) => LockKeepsInv(s, tid, pk);
    case Work(tid, pk) => WorkKeepsInv(s, tid, pk);
    case Finish(tid) => FinishKeepsInv(s, tid);
    case Commit(tid) => CommitKeepsInv(s, tid);
    case Interrupt(tid) => CommitKeepsInv(s, tid);
    case Crash(tid) => CrashKeepsInv(s, tid);
  }

  lemma StepKeepsInv(s: State, l: Label)
    requires Inv(s) && Enabled(s, l)
    ensures Inv(Next(s, l))
  {
    if l.Tick? {
      TickKeepsInv(s, l.seconds);
    } else if l.SetPal? {
      PalKeepsInv(s, s.pals[l.id := l.pal]);
    } else if l.DropPal? {
      PalKeepsInv(s, s.pals - {l.id});
    } else if l.Begin? || l.TakeIap? || l.TakeCbsd? {
      LocksKeepInv(s, l);
    } else {
      RowStepKeepsInv(s, l);
    }
  }

  lemma CrashKeepsInv(s: State, tid: nat)
    requires Inv(s) && tid in s.threads
    ensures Inv(s.(threads := s.threads - {tid}))
  {
  }

  lemma {:induction false} RunKeepsInv(s: State, run: seq<Label>)
    requires Inv(s) && Legal(s, run)
    ensures Inv(After(s, run))
    decreases |run|
  {
    if run != [] {
      StepKeepsInv(s, run[0]);
      RunKeepsInv(Next(s, run[0]), run[1..]);
    }
  }
}
