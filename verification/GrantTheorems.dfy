/** What every run of the grant table keeps: its rows and times, the end of a grant, its licence. */
module GrantTheorems {
  import opened Wrappers
  import opened Spectrum
  import opened SpectrumInquiry
  import opened Lifecycle
  import opened Heartbeat
  import opened Decisions
  import opened GrantProtocol

  // -------------------------------------------------------------- the table

  /** A state that the system gets into from an empty database. */
  ghost predicate Reached(s: State, start: int, pals: map<string, PalRow>, run: seq<Label>) {
    Legal(Init(start, pals), run) && s == After(Init(start, pals), run)
  }

  lemma ReachedInv(s: State, start: int, pals: map<string, PalRow>, run: seq<Label>)
    requires Reached(s, start, pals, run)
    ensures Inv(s)
  {
    RunKeepsInv(Init(start, pals), run);
  }

  /** Under every interleaving: live grants of one CBSD are disjoint, every grant lies in the band
      and belongs to a registered CBSD, its flag agrees with its state, and no lock has two holders. */
  lemma TableInvariant(s: State, start: int, pals: map<string, PalRow>, run: seq<Label>)
    requires Reached(s, start, pals, run)
    ensures forall p, q :: p in s.grants && q in s.grants && p != q ==> RowApart(s.grants[p].row, s.grants[q].row)
    ensures forall p :: p in s.grants ==>
              var row := s.grants[p].row;
              CBRS_LOW_HZ <= row.low < row.high <= CBRS_HIGH_HZ && row.cbsd in s.cbsds && FlagsAgree(row) && row.raw.Some?
    ensures Exclusive(s.threads)
  {
    ReachedInv(s, start, pals, run);
  }

  /** Whole-run bounds: a transmit time reaches at most 240 s past the clock reading it was computed
      from, a grant at most 900 s past the present, and a row is written EXPIRED only after its end. */
  lemma TimeInvariant(s: State, start: int, pals: map<string, PalRow>, run: seq<Label>, pk: int)
    requires Reached(s, start, pals, run) && pk in s.grants
    ensures s.grants[pk].beat <= s.now && s.grants[pk].row.tx <= s.grants[pk].beat + 240
    ensures s.grants[pk].row.expire <= s.now + DEFAULT_GRANT_DURATION_SEC
    ensures s.grants[pk].row.raw == Some(EXPIRED) ==> s.grants[pk].row.expire <= s.now
  {
    ReachedInv(s, start, pals, run);
  }

  /** A completed deregistration leaves no row of the CBSD, a completed registration no live one. */
  lemma RegistrationsLeaveNoLiveGrant(s: State, start: int, pals: map<string, PalRow>, run: seq<Label>, tid: nat)
    requires Reached(s, start, pals, run) && tid in s.threads && s.threads[tid].phase == Complete
    ensures s.threads[tid].op.DeregisterOp? ==>
              && s.threads[tid].op.cbsd !in Committed(s, tid).cbsds
              && forall pk :: pk in Committed(s, tid).grants ==> Committed(s, tid).grants[pk].row.cbsd != s.threads[tid].op.cbsd
    ensures s.threads[tid].op.RegisterOp? ==>
              && s.threads[tid].op.cbsd in Committed(s, tid).cbsds
              && forall pk :: pk in Committed(s, tid).grants && Committed(s, tid).grants[pk].row.cbsd == s.threads[tid].op.cbsd ==>
                   Dead(Committed(s, tid).grants[pk].row, s.now)
  {
    ReachedInv(s, start, pals, run);
    assert ThreadOk(s.threads[tid], s.grants, s.cbsds, s.now);
  }

  ghost predicate AllWithin(s: State) {
    forall pk :: pk in s.grants ==> Within(s.grants[pk].row)
  }

  /** A heartbeat that fails between renewing a PAL grant and recomputing its transmit time, when the
      licence end that the renewal has read lies before the committed transmit time. */
  ghost predicate Spoils(s: State, l: Label) {
    && l.Interrupt? && l.tid in s.threads
    && var t := s.threads[l.tid];
    && t.op.HeartbeatOp? && t.op.req.renew && t.phase == Beating(Transmit) && t.op.pk in t.local && t.op.pk in s.grants
    && s.grants[t.op.pk].row.channel == PAL
    && t.local[t.op.pk].row.storedCap.Some? && t.local[t.op.pk].row.storedCap.value < s.grants[t.op.pk].row.tx
  }

  /** In the one critical stage, the copy's times have crossed exactly by a licence end that early. */
  lemma CrossedExactly(req: Request, row: Row, copy: Row)
    requires BetweenTimes(req, row, copy) && Within(row)
    ensures !Within(copy) <==> req.renew && copy.channel == PAL && copy.storedCap.Some? && copy.storedCap.value < row.tx
  {
  }

  lemma InterruptExactly(s: State, l: Label)
    requires Inv(s) && Enabled(s, l) && l.Interrupt? && AllWithin(s)
    ensures AllWithin(Next(s, l)) <==> !Spoils(s, l)
  {
    var t := s.threads[l.tid];
    assert ThreadOk(t, s.grants, s.cbsds, s.now);
    if t.op.HeartbeatOp? && t.phase == Beating(Transmit) {
      var pk := t.op.pk;
      assert t.local.Keys == {pk} && Next(s, l).grants[pk] == t.local[pk];
      CrossedExactly(t.op.req, s.grants[pk].row, t.local[pk].row);
    }
  }

  /** No transmit time ever passes its grant's expiry, but for exactly one kind of step. */
  lemma TransmitWithinExpiryExactly(s: State, start: int, pals: map<string, PalRow>, run: seq<Label>, l: Label)
    requires Reached(s, start, pals, run) && Enabled(s, l) && AllWithin(s)
    ensures AllWithin(Next(s, l)) <==> !Spoils(s, l)
  {
    ReachedInv(s, start, pals, run);
    if l.Interrupt? {
      InterruptExactly(s, l);
    } else if l.Commit? {
      assert ThreadOk(s.threads[l.tid], s.grants, s.cbsds, s.now);
    }
  }

  // ------------------------------------------------------- dead stays dead

  /** An uncommitted copy of the row that is still alive: a renewal overtaken by the old expiry. */
  ghost predicate LiveCopy(s: State, pk: int) {
    exists t :: t in s.threads && pk in s.threads[t].local && !Dead(s.threads[t].local[pk].row, s.now)
  }

  ghost predicate RelinquishPending(s: State, pk: int) {
    exists t :: t in s.threads && pk in s.threads[t].local && s.threads[t].local[pk].row.raw == Some(RELINQUISHED)
  }

  /** The terminal states that may follow `from`. */
  predicate Settles(from: GrantState, to: GrantState, pending: bool) {
    to == from || (from == EXPIRED && (to == TERMINATED || (pending && to == RELINQUISHED)))
  }

  /** Dead in a way that leads on from state `from`, with a transmit time at most 240 s past `since`. */
  predicate Grave(e: Entry, now: int, from: GrantState, pending: bool, since: int) {
    && Dead(e.row, now) && Settles(from, Resolve(e.row, now), pending)
    && e.row.tx <= since + 240
    && (Heard(e.row) ==> e.row.expire <= since)
  }

  ghost predicate Buried(s: State, pk: int, from: GrantState, pending: bool, since: int) {
    && pk < s.nextPk && since <= s.now && Terminal(from)
    && (pk in s.grants ==> Grave(s.grants[pk], s.now, from, pending, since))
    && (forall t :: t in s.threads && pk in s.threads[t].local ==> Grave(s.threads[t].local[pk], s.now, from, pending, since))
  }

  lemma GraveEvent(e: Entry, event: GrantEvent, payload: set<string>, now: int, from: GrantState, pending: bool, since: int)
    requires Grave(e, now, from, pending, since) && Sound(e, now) && event in {Terminate, Suspend, Relinquish}
    ensures Grave(e.(row := AfterEvent(e.row, event, payload, now)), now, from, pending, since)
  {
  }

  lemma GraveStage(e: Entry, stage: Stage, req: Request, pals: map<string, PalRow>, now: int, from: GrantState, pending: bool, since: int)
    requires Grave(e, now, from, pending, since) && Sound(e, now) && Terminal(from) && since <= now
    requires stage != Gate && !stage.Finished? ==> Heard(e.row)
    ensures Grave(StagedEntry(e, stage, req, pals, now), now, from, pending, since)
  {
  }

  lemma GraveLater(e: Entry, now: int, later: int, from: GrantState, pending: bool, since: int)
    requires Grave(e, now, from, pending, since) && now <= later
    ensures Grave(e, later, from, pending, since)
  {
    DeadWithTime(e.row, now, later);
  }

  lemma DecidedGrave(e: Entry, d: Decision, now: int, from: GrantState, pending: bool, since: int)
    requires Grave(e, now, from, pending, since) && Sound(e, now)
    ensures Grave(e.(row := Decided(e.row, d, now)), now, from, pending, since)
  {
    GraveEvent(e, Terminate, PAYLOAD, now, from, pending, since);
    GraveEvent(e, Suspend, PAYLOAD, now, from, pending, since);
  }

  lemma WorkedGrave(s: State, tid: nat, pk: int, from: GrantState, pending: bool, since: int)
    requires Inv(s) && tid in s.threads && CanWork(s, tid, pk) && pk in s.threads[tid].local && Terminal(from) && since <= s.now
    requires Grave(s.threads[tid].local[pk], s.now, from, pending, since)
    ensures pk in Worked(s, tid, pk).local && Grave(Worked(s, tid, pk).local[pk], s.now, from, pending, since)
  {
    var t := s.threads[tid];
    assert ThreadOk(t, s.grants, s.cbsds, s.now);
    var e := t.local[pk];
    match t.op
    case GrantOp(_) =>
    case HeartbeatOp(_, _, req) => GraveStage(e, t.phase.stage, req, s.pals, s.now, from, pending, since);
    case CpasOp(ds) => DecidedGrave(e, ds[t.phase.i], s.now, from, pending, since);
    case RelinquishOp(_, _) => GraveEvent(e, Relinquish, IDS, s.now, from, pending, since);
    case _ => GraveEvent(e, Terminate, IDS, s.now, from, pending, since);
  }

  lemma WorkKeepsBuried(s: State, tid: nat, p: int, pk: int, from: GrantState, pending: bool, since: int)
    requires Inv(s) && Buried(s, pk, from, pending, since) && tid in s.threads && CanWork(s, tid, p)
    ensures Buried(Next(s, Work(tid, p)), pk, from, pending, since)
  {
    WorkKeeps(s, tid, p);
    if p == pk && pk in s.threads[tid].local {
      WorkedGrave(s, tid, pk, from, pending, since);
    }
    if p != pk && pk in s.threads[tid].local {
      WorkedElsewhere(s, tid, p, pk);
    }
  }

  lemma WorkedElsewhere(s: State, tid: nat, p: int, pk: int)
    requires tid in s.threads && CanWork(s, tid, p) && p != pk && pk in s.threads[tid].local
    ensures pk in Worked(s, tid, p).local && Worked(s, tid, p).local[pk] == s.threads[tid].local[pk]
  {
  }

  lemma CommitKeepsBuried(s: State, tid: nat, pk: int, from: GrantState, pending: bool, since: int)
    requires Buried(s, pk, from, pending, since) && tid in s.threads
    ensures Buried(Committed(s, tid), pk, from, pending, since)
  {
  }

  lemma LockKeepsBuried(s: State, tid: nat, p: int, pk: int, from: GrantState, pending: bool, since: int)
    requires Buried(s, pk, from, pending, since) && Enabled(s, LockRow(tid, p))
    ensures Buried(Next(s, LockRow(tid, p)), pk, from, pending, since)
  {
  }

  /** Steps that touch no row. */
  lemma HoldKeepsBuried(s: State, l: Label, pk: int, from: GrantState, pending: bool, since: int)
    requires Buried(s, pk, from, pending, since) && Enabled(s, l)
    requires l.Begin? || l.TakeIap? || l.TakeCbsd? || l.Finish? || l.Crash?
    ensures Buried(Next(s, l), pk, from, pending, since)
  {
  }

  lemma TickKeepsBuried(s: State, d: nat, pk: int, from: GrantState, pending: bool, since: int)
    requires Buried(s, pk, from, pending, since)
    ensures Buried(s.(now := s.now + d), pk, from, pending, since)
  {
    if pk in s.grants {
      GraveLater(s.grants[pk], s.now, s.now + d, from, pending, since);
    }
    forall t | t in s.threads && pk in s.threads[t].local ensures Grave(s.threads[t].local[pk], s.now + d, from, pending, since) {
      GraveLater(s.threads[t].local[pk], s.now, s.now + d, from, pending, since);
    }
  }

  lemma StepKeepsBuried(s: State, l: Label, pk: int, from: GrantState, pending: bool, since: int)
    requires Inv(s) && Buried(s, pk, from, pending, since) && Enabled(s, l)
    ensures Buried(Next(s, l), pk, from, pending, since)
  {
    match l
    case Tick(d) => TickKeepsBuried(s, d, pk, from, pending, since);
    case Work(tid, p) => WorkKeepsBuried(s, tid, p, pk, from, pending, since);
    case Commit(tid) => CommitKeepsBuried(s, tid, pk, from, pending, since);
    case Interrupt(tid) => CommitKeepsBuried(s, tid, pk, from, pending, since);
    case LockRow(tid, p) => LockKeepsBuried(s, tid, p, pk, from, pending, since);
    case SetPal(_, _) =>
    case DropPal(_) =>
    case _ => HoldKeepsBuried(s, l, pk, from, pending, since);
  }

  lemma {:induction false} RunKeepsBuried(s: State, run: seq<Label>, pk: int, from: GrantState, pending: bool, since: int)
    requires Inv(s) && Buried(s, pk, from, pending, since) && Legal(s, run)
    ensures Buried(After(s, run), pk, from, pending, since)
    decreases |run|
  {
    if run != [] {
      StepKeepsInv(s, run[0]);
      StepKeepsBuried(s, run[0], pk, from, pending, since);
      RunKeepsBuried(Next(s, run[0]), run[1..], pk, from, pending, since);
    }
  }

  lemma BuriedNow(s: State, pk: int)
    requires Inv(s) && pk in s.grants && Dead(s.grants[pk].row, s.now) && !LiveCopy(s, pk)
    ensures Buried(s, pk, Resolve(s.grants[pk].row, s.now), RelinquishPending(s, pk), s.now)
  {
    forall t | t in s.threads && pk in s.threads[t].local
      ensures Grave(s.threads[t].local[pk], s.now, Resolve(s.grants[pk].row, s.now), RelinquishPending(s, pk), s.now)
    {
      assert ThreadOk(s.threads[t], s.grants, s.cbsds, s.now);
      assert Dead(s.threads[t].local[pk].row, s.now);
    }
  }

  /** Once dead with no live copy in flight, dead at every later moment of every run: the same
      terminal state, or EXPIRED turned TERMINATED (RELINQUISHED only if that was already waiting to
      be committed), and no transmit time later than 240 s after the death. */
  lemma DeadStaysDead(s: State, start: int, pals: map<string, PalRow>, past: seq<Label>, run: seq<Label>, pk: int)
    requires Reached(s, start, pals, past) && Legal(s, run)
    requires pk in s.grants && Dead(s.grants[pk].row, s.now) && !LiveCopy(s, pk)
    ensures var s' := After(s, run);
            pk in s'.grants ==>
              && Dead(s'.grants[pk].row, s'.now)
              && Settles(Resolve(s.grants[pk].row, s.now), Resolve(s'.grants[pk].row, s'.now), RelinquishPending(s, pk))
              && s'.grants[pk].row.tx <= s.now + 240
  {
    ReachedInv(s, start, pals, past);
    BuriedNow(s, pk);
    RunKeepsBuried(s, run, pk, Resolve(s.grants[pk].row, s.now), RelinquishPending(s, pk), s.now);
  }

  ghost predicate AliveAfter(s: State, run: seq<Label>, pk: int) {
    Legal(s, run) && var s' := After(s, run); pk in s'.grants && !Dead(s'.grants[pk].row, s'.now)
  }

  /** A dead grant can come back in some continuation exactly when a live copy is in flight. */
  lemma RevivalExactly(s: State, start: int, pals: map<string, PalRow>, past: seq<Label>, pk: int)
    requires Reached(s, start, pals, past) && pk in s.grants && Dead(s.grants[pk].row, s.now)
    ensures (exists run :: AliveAfter(s, run, pk)) <==> LiveCopy(s, pk)
  {
    ReachedInv(s, start, pals, past);
    if LiveCopy(s, pk) {
      var t :| t in s.threads && pk in s.threads[t].local && !Dead(s.threads[t].local[pk].row, s.now);
      LiveCopyIsHeartbeat(s, t, pk);
      var run := [Interrupt(t)];
      assert Next(s, run[0]).grants[pk] == s.threads[t].local[pk];
      assert run[1..] == [];
      assert After(s, run) == Next(s, run[0]);
      assert AliveAfter(s, run, pk);
    } else {
      forall run | Legal(s, run) ensures !AliveAfter(s, run, pk) {
        DeadStaysDead(s, start, pals, past, run, pk);
      }
    }
  }

  lemma LiveCopyIsHeartbeat(s: State, t: nat, pk: int)
    requires Inv(s) && t in s.threads && pk in s.threads[t].local && pk in s.grants
    requires Dead(s.grants[pk].row, s.now) && !Dead(s.threads[t].local[pk].row, s.now)
    ensures s.threads[t].op.HeartbeatOp?
  {
    assert ThreadOk(s.threads[t], s.grants, s.cbsds, s.now);
    var row, copy := s.grants[pk].row, s.threads[t].local[pk].row;
    assert Sound(s.grants[pk], s.now) && Sound(s.threads[t].local[pk], s.now);
    assert TimesFollow(s.threads[t], row, copy) && Follows(s.grants[pk], s.threads[t].local[pk]);
    match copy.raw.value {
      case REQUESTED =>
      case _ =>
    }
  }

  // --------------------------------------------------------------- licences

  /** The expiration column of a record and the one inside it are written from one source. */
  predicate Consistent(pals: map<string, PalRow>, id: string) {
    id in pals && pals[id].column.Some? && pals[id].json.Some? ==> pals[id].column == pals[id].json
  }

  /** This PAL record is neither written nor deleted during the run; others may be. */
  predicate LeavesAlone(run: seq<Label>, id: string) {
    forall l :: l in run ==> !Writes(l, id)
  }

  predicate Writes(l: Label, id: string) {
    (l.SetPal? && l.id == id) || (l.DropPal? && l.id == id)
  }

  /** Nobody has asked for or got a grant on this PAL yet. */
  ghost predicate Unused(s: State, id: string) {
    && (forall pk :: pk in s.grants ==> s.grants[pk].row.palId != Some(id))
    && (forall t :: t in s.threads && s.threads[t].op.GrantOp? ==> s.threads[t].op.plan.palId != Some(id))
  }

  /** The rows the claims below are about: general access always, and the PAL in question if any. */
  predicate Concerns(channel: Kind, palId: Option<string>, lic: Option<string>) {
    channel == GAA || (lic.Some? && palId == lic)
  }

  predicate Capped(row: Row, pals: map<string, PalRow>) {
    && (LicenseCap(row, pals).Some? ==> row.expire <= LicenseCap(row, pals).value)
    && (row.palId.Some? && row.palId.value in pals && LicenseEnd(pals[row.palId.value]).Some? ==>
          row.expire <= LicenseEnd(pals[row.palId.value]).value)
  }

  predicate Licensed(row: Row, pals: map<string, PalRow>, lic: Option<string>) {
    Concerns(row.channel, row.palId, lic) ==> Within(row) && (row.channel == PAL ==> Capped(row, pals))
  }

  predicate PlanLicensed(t: Thread, pals: map<string, PalRow>, lic: Option<string>) {
    match t.op
    case GrantOp(plan) =>
      && (plan.channel == GAA ==> plan.palId.None? && plan.cap.None?)
      && (plan.channel == PAL && lic.Some? && plan.palId == lic ==> lic.value in pals && plan.cap == LicenseEnd(pals[lic.value]))
      && (t.phase.Timed? && plan.cap.Some? ==> t.phase.expire <= plan.cap.value)
      && (t.phase.Inserting? ==>
            Licensed(t.phase.entry.row, pals, lic) && t.phase.entry.row.palId == plan.palId && t.phase.entry.row.channel == plan.channel)
    case _ => true
  }

  ghost predicate AllLicensed(s: State, lic: Option<string>) {
    && (lic.Some? ==> Consistent(s.pals, lic.value))
    && (forall pk :: pk in s.grants ==> Licensed(s.grants[pk].row, s.pals, lic))
    && (forall t :: t in s.threads ==> PlanLicensed(s.threads[t], s.pals, lic))
    && (forall t, pk :: t in s.threads && pk in s.threads[t].local ==> Licensed(s.threads[t].local[pk].row, s.pals, lic))
  }

  /** What a renewal needs of a row not to shorten it. */
  lemma NotShortened(row: Row, pals: map<string, PalRow>, lic: Option<string>, now: int)
    requires Licensed(row, pals, lic) && Concerns(row.channel, row.palId, lic) && row.expire <= now + DEFAULT_GRANT_DURATION_SEC
    ensures ComputeRenewal(row, pals, now).Ok? ==> row.expire <= ComputeRenewal(row, pals, now).value
  {
    if ComputeRenewal(row, pals, now).Ok? {
      RenewalNeverShortens(row, pals, now, now);
    }
  }

  lemma RenewedLicensed(row: Row, pals: map<string, PalRow>, lic: Option<string>, now: int)
    requires Licensed(row, pals, lic) && row.expire <= now + DEFAULT_GRANT_DURATION_SEC && ComputeRenewal(row, pals, now).Ok?
    requires lic.Some? ==> Consistent(pals, lic.value)
    ensures Licensed(Renewed(row, pals, ComputeRenewal(row, pals, now).value), pals, lic)
  {
    if Concerns(row.channel, row.palId, lic) {
      NotShortened(row, pals, lic, now);
      RenewalBounds(row, pals, now);
    }
  }

  lemma StageLicensed(row: Row, stage: Stage, req: Request, pals: map<string, PalRow>, lic: Option<string>, now: int)
    requires Licensed(row, pals, lic) && row.expire <= now + DEFAULT_GRANT_DURATION_SEC
    requires lic.Some? ==> Consistent(pals, lic.value)
    ensures Licensed(Advance(row, stage, req, pals, now).0, pals, lic)
  {
    match stage
    case Renewal =>
      if ComputeRenewal(row, pals, now).Ok? {
        RenewedLicensed(row, pals, lic, now);
      }
    case Gate => EventLicensed(row, Terminate, IDS, now, pals, lic);
    case Expiring => EventLicensed(row, Expire, IDS, now, pals, lic);
    case Incumbent => EventLicensed(row, Terminate, IDS, now, pals, lic);
    case Authorizing => EventLicensed(row, Authorize, IDS_AND_STATE, now, pals, lic);
    case _ =>
  }

  lemma EventLicensed(row: Row, event: GrantEvent, payload: set<string>, now: int, pals: map<string, PalRow>, lic: Option<string>)
    requires Licensed(row, pals, lic)
    ensures Licensed(AfterEvent(row, event, payload, now), pals, lic)
  {
  }

  lemma DecidedLicensed(row: Row, d: Decision, now: int, pals: map<string, PalRow>, lic: Option<string>)
    requires Licensed(row, pals, lic)
    ensures Licensed(Decided(row, d, now), pals, lic)
  {
    EventLicensed(row, Terminate, PAYLOAD, now, pals, lic);
    EventLicensed(row, Suspend, PAYLOAD, now, pals, lic);
  }

  lemma WorkedRowLicensed(s: State, tid: nat, pk: int, lic: Option<string>)
    requires Inv(s) && AllLicensed(s, lic) && tid in s.threads && CanWork(s, tid, pk) && pk in s.threads[tid].local
    ensures pk in Worked(s, tid, pk).local && Licensed(Worked(s, tid, pk).local[pk].row, s.pals, lic)
  {
    var t := s.threads[tid];
    assert ThreadOk(t, s.grants, s.cbsds, s.now);
    var row := t.local[pk].row;
    match t.op
    case GrantOp(_) =>
    case HeartbeatOp(_, _, req) => StageLicensed(row, t.phase.stage, req, s.pals, lic, s.now);
    case CpasOp(ds) => DecidedLicensed(row, ds[t.phase.i], s.now, s.pals, lic);
    case RelinquishOp(_, _) => EventLicensed(row, Relinquish, IDS, s.now, s.pals, lic);
    case _ => EventLicensed(row, Terminate, IDS, s.now, s.pals, lic);
  }

  lemma NewEntryLicensed(plan: Plan, expire: int, now: int, pals: map<string, PalRow>, lic: Option<string>)
    requires lic.Some? ==> Consistent(pals, lic.value)
    requires plan.cap.Some? ==> expire <= plan.cap.value
    requires plan.channel == PAL && lic.Some? && plan.palId == lic ==> lic.value in pals && plan.cap == LicenseEnd(pals[lic.value])
    ensures Licensed(NewEntry(plan, expire, now).row, pals, lic)
  {
  }

  lemma WorkedPlanLicensed(s: State, tid: nat, pk: int, lic: Option<string>)
    requires AllLicensed(s, lic) && tid in s.threads && CanWork(s, tid, pk)
    ensures PlanLicensed(Worked(s, tid, pk), s.pals, lic)
  {
    var t := s.threads[tid];
    assert PlanLicensed(t, s.pals, lic);
    if t.op.GrantOp? && t.phase.Timed? {
      NewEntryLicensed(t.op.plan, t.phase.expire, s.now, s.pals, lic);
    }
  }

  lemma WorkKeepsLicensed(s: State, tid: nat, pk: int, lic: Option<string>)
    requires Inv(s) && AllLicensed(s, lic) && Enabled(s, Work(tid, pk))
    ensures AllLicensed(Next(s, Work(tid, pk)), lic)
  {
    WorkKeeps(s, tid, pk);
    WorkedPlanLicensed(s, tid, pk, lic);
    forall p | p in Worked(s, tid, pk).local ensures Licensed(Worked(s, tid, pk).local[p].row, s.pals, lic) {
      if p == pk {
        WorkedRowLicensed(s, tid, pk, lic);
      } else {
        WorkedElsewhere(s, tid, pk, p);
      }
    }
  }

  lemma LockKeepsLicensed(s: State, tid: nat, pk: int, lic: Option<string>)
    requires AllLicensed(s, lic) && Enabled(s, LockRow(tid, pk))
    ensures AllLicensed(Next(s, LockRow(tid, pk)), lic)
  {
    assert PlanLicensed(s.threads[tid], s.pals, lic);
  }

  lemma HoldKeepsLicensed(s: State, l: Label, lic: Option<string>)
    requires AllLicensed(s, lic) && Enabled(s, l)
    requires l.Begin? || l.TakeIap? || l.TakeCbsd? || l.Finish? || l.Crash?
    ensures AllLicensed(Next(s, l), lic)
  {
    if l.TakeIap? || l.TakeCbsd? || l.Finish? {
      assert PlanLicensed(s.threads[l.tid], s.pals, lic);
    }
  }

  lemma CommitKeepsLicensed(s: State, tid: nat, lic: Option<string>)
    requires AllLicensed(s, lic) && tid in s.threads
    ensures AllLicensed(Committed(s, tid), lic)
  {
    assert PlanLicensed(s.threads[tid], s.pals, lic);
  }

  /** Writes to other PAL records are none of this one's business. */
  lemma PalsKeepLicensed(s: State, pals: map<string, PalRow>, lic: Option<string>)
    requires AllLicensed(s, lic)
    requires lic.Some? ==> (lic.value in pals <==> lic.value in s.pals) && (lic.value in pals ==> pals[lic.value] == s.pals[lic.value])
    ensures AllLicensed(s.(pals := pals), lic)
  {
    forall row: Row | Licensed(row, s.pals, lic) ensures Licensed(row, pals, lic) {
    }
    forall t | t in s.threads ensures PlanLicensed(s.threads[t], pals, lic) {
      assert PlanLicensed(s.threads[t], s.pals, lic);
    }
  }

  lemma StepKeepsLicensed(s: State, l: Label, lic: Option<string>)
    requires Inv(s) && AllLicensed(s, lic) && Enabled(s, l) && (lic.Some? ==> !Writes(l, lic.value))
    ensures AllLicensed(Next(s, l), lic)
  {
    match l
    case Work(tid, pk) => WorkKeepsLicensed(s, tid, pk, lic);
    case Commit(tid) => CommitKeepsLicensed(s, tid, lic);
    case Interrupt(tid) => CommitKeepsLicensed(s, tid, lic);
    case LockRow(tid, pk) => LockKeepsLicensed(s, tid, pk, lic);
    case Tick(_) =>
    case SetPal(id, pal) => PalsKeepLicensed(s, s.pals[id := pal], lic);
    case DropPal(id) => PalsKeepLicensed(s, s.pals - {id}, lic);
    case _ => HoldKeepsLicensed(s, l, lic);
  }

  lemma {:induction false} RunKeepsLicensed(s: State, run: seq<Label>, lic: Option<string>)
    requires Inv(s) && AllLicensed(s, lic) && Legal(s, run) && (lic.Some? ==> LeavesAlone(run, lic.value))
    ensures AllLicensed(After(s, run), lic)
    decreases |run|
  {
    if run != [] {
      StepKeepsInv(s, run[0]);
      StepKeepsLicensed(s, run[0], lic);
      RunKeepsLicensed(Next(s, run[0]), run[1..], lic);
    }
  }

  lemma UnusedIsLicensed(s: State, id: string)
    requires Inv(s) && AllLicensed(s, None) && Unused(s, id) && Consistent(s.pals, id)
    ensures AllLicensed(s, Some(id))
  {
    forall t | t in s.threads ensures PlanLicensed(s.threads[t], s.pals, Some(id)) {
      assert PlanLicensed(s.threads[t], s.pals, None) && ThreadOk(s.threads[t], s.grants, s.cbsds, s.now);
    }
    forall t, pk | t in s.threads && pk in s.threads[t].local ensures Licensed(s.threads[t].local[pk].row, s.pals, Some(id)) {
      assert ThreadOk(s.threads[t], s.grants, s.cbsds, s.now);
      assert Licensed(s.threads[t].local[pk].row, s.pals, None);
    }
  }

  ghost predicate NeverShortened(s: State, pk: int)
    requires pk in s.grants
  {
    && (ComputeRenewal(s.grants[pk].row, s.pals, s.now).Ok? ==>
          s.grants[pk].row.expire <= ComputeRenewal(s.grants[pk].row, s.pals, s.now).value)
    && forall t :: t in s.threads && pk in s.threads[t].local && ComputeRenewal(s.threads[t].local[pk].row, s.pals, s.now).Ok? ==>
                     s.threads[t].local[pk].row.expire <= ComputeRenewal(s.threads[t].local[pk].row, s.pals, s.now).value
  }

  lemma LicensedNow(s: State, lic: Option<string>, pk: int)
    requires Inv(s) && AllLicensed(s, lic) && pk in s.grants && Concerns(s.grants[pk].row.channel, s.grants[pk].row.palId, lic)
    ensures Within(s.grants[pk].row) && NeverShortened(s, pk)
    ensures s.grants[pk].row.channel == PAL ==> Capped(s.grants[pk].row, s.pals)
  {
    NotShortened(s.grants[pk].row, s.pals, lic, s.now);
    forall t | t in s.threads && pk in s.threads[t].local && ComputeRenewal(s.threads[t].local[pk].row, s.pals, s.now).Ok?
      ensures s.threads[t].local[pk].row.expire <= ComputeRenewal(s.threads[t].local[pk].row, s.pals, s.now).value
    {
      assert ThreadOk(s.threads[t], s.grants, s.cbsds, s.now);
      NotShortened(s.threads[t].local[pk].row, s.pals, lic, s.now);
    }
  }

  /** From any moment at which a PAL is not in use yet, as long as its own record stays as it is,
      whatever happens to other records: no grant on it outlives the licence, no transmit time its
      grant, and the renewal a row would get now never shortens it, be the row committed or locked. */
  lemma LicenceBoundsEveryGrant(s0: State, start: int, pals: map<string, PalRow>, past: seq<Label>, run: seq<Label>, id: string, pk: int)
    requires Reached(s0, start, pals, past) && Legal(s0, run)
    requires Unused(s0, id) && Consistent(s0.pals, id) && LeavesAlone(run, id)
    requires pk in After(s0, run).grants && After(s0, run).grants[pk].row.palId == Some(id)
    ensures var s := After(s0, run);
            && Within(s.grants[pk].row) && NeverShortened(s, pk)
            && (id in s.pals && LicenseEnd(s.pals[id]).Some? && s.grants[pk].row.channel == PAL ==>
                  s.grants[pk].row.expire <= LicenseEnd(s.pals[id]).value)
  {
    ReachedInv(s0, start, pals, past);
    RunKeepsLicensed(Init(start, pals), past, None);
    UnusedIsLicensed(s0, id);
    RunKeepsInv(s0, run);
    RunKeepsLicensed(s0, run, Some(id));
    LicensedNow(After(s0, run), Some(id), pk);
  }

  /** A general-access grant keeps its transmit time within its expiry and is never shortened, in
      every run and whatever is done to PAL records. */
  lemma GeneralAccessBounds(s: State, start: int, pals: map<string, PalRow>, run: seq<Label>, pk: int)
    requires Reached(s, start, pals, run) && pk in s.grants && s.grants[pk].row.channel == GAA
    ensures Within(s.grants[pk].row) && NeverShortened(s, pk)
  {
    ReachedInv(s, start, pals, run);
    RunKeepsLicensed(Init(start, pals), run, None);
    LicensedNow(s, None, pk);
  }

  // ------------------------------------------------------ expiries never fall

  predicate Ahead(row: Row, copy: Row, lic: Option<string>) {
    Concerns(row.channel, row.palId, lic) ==> row.expire <= copy.expire
  }

  /** No uncommitted copy ends before its row. */
  ghost predicate NoneBehind(s: State, lic: Option<string>) {
    forall t, pk :: t in s.threads && pk in s.threads[t].local ==> pk in s.grants && Ahead(s.grants[pk].row, s.threads[t].local[pk].row, lic)
  }

  lemma StageAhead(row: Row, stage: Stage, req: Request, pals: map<string, PalRow>, lic: Option<string>, now: int)
    requires Licensed(row, pals, lic) && row.expire <= now + DEFAULT_GRANT_DURATION_SEC
    ensures Ahead(row, Advance(row, stage, req, pals, now).0, lic)
  {
    if stage == Renewal && Concerns(row.channel, row.palId, lic) {
      NotShortened(row, pals, lic, now);
    }
  }

  lemma DecidedKeepsExpiry(row: Row, d: Decision, now: int)
    ensures Decided(row, d, now).expire == row.expire
  {
    DecidedIsMilder(row, d, now);
  }

  lemma WorkedAhead(s: State, tid: nat, pk: int, lic: Option<string>)
    requires Inv(s) && AllLicensed(s, lic) && tid in s.threads && CanWork(s, tid, pk) && pk in s.threads[tid].local
    ensures pk in Worked(s, tid, pk).local && Ahead(s.threads[tid].local[pk].row, Worked(s, tid, pk).local[pk].row, lic)
  {
    var t := s.threads[tid];
    assert ThreadOk(t, s.grants, s.cbsds, s.now);
    var row := t.local[pk].row;
    match t.op
    case HeartbeatOp(_, _, req) => StageAhead(row, t.phase.stage, req, s.pals, lic, s.now);
    case CpasOp(ds) => DecidedKeepsExpiry(row, ds[t.phase.i], s.now);
    case _ =>
  }

  lemma WorkKeepsAhead(s: State, tid: nat, p: int, lic: Option<string>)
    requires Inv(s) && AllLicensed(s, lic) && NoneBehind(s, lic) && Enabled(s, Work(tid, p))
    ensures NoneBehind(Next(s, Work(tid, p)), lic)
  {
    WorkKeeps(s, tid, p);
    assert ThreadOk(s.threads[tid], s.grants, s.cbsds, s.now);
    forall pk | pk in s.threads[tid].local ensures Ahead(s.grants[pk].row, Worked(s, tid, p).local[pk].row, lic) {
      if pk == p {
        WorkedAhead(s, tid, pk, lic);
      } else {
        WorkedElsewhere(s, tid, p, pk);
      }
    }
  }

  lemma CommitKeepsAhead(s: State, tid: nat, lic: Option<string>)
    requires Inv(s) && NoneBehind(s, lic) && tid in s.threads
    ensures NoneBehind(Committed(s, tid), lic)
  {
    assert ThreadOk(s.threads[tid], s.grants, s.cbsds, s.now);
    CommitEffect(s, tid);
  }

  lemma StepKeepsAhead(s: State, l: Label, lic: Option<string>)
    requires Inv(s) && AllLicensed(s, lic) && NoneBehind(s, lic) && Enabled(s, l)
    ensures NoneBehind(Next(s, l), lic)
  {
    match l
    case Work(tid, pk) => WorkKeepsAhead(s, tid, pk, lic);
    case Commit(tid) => CommitKeepsAhead(s, tid, lic);
    case Interrupt(tid) => CommitKeepsAhead(s, tid, lic);
    case _ => HoldKeepsAhead(s, l, lic);
  }

  /** Steps that change no copy but a new one. */
  lemma HoldKeepsAhead(s: State, l: Label, lic: Option<string>)
    requires NoneBehind(s, lic) && Enabled(s, l) && !l.Work? && !l.Commit? && !l.Interrupt?
    ensures NoneBehind(Next(s, l), lic)
  {
  }

  /** A commit moves the expiry of a row to that of the copy, so never down. */
  lemma CommitNeverShortens(s: State, tid: nat, lic: Option<string>, pk: int)
    requires Inv(s) && NoneBehind(s, lic) && tid in s.threads && pk in s.grants && pk in Committed(s, tid).grants
    ensures Ahead(s.grants[pk].row, Committed(s, tid).grants[pk].row, lic)
  {
    assert ThreadOk(s.threads[tid], s.grants, s.cbsds, s.now);
  }

  /** Primary keys are not handed out twice. */
  lemma StepKeepsGone(s: State, l: Label, pk: int)
    requires Enabled(s, l) && pk < s.nextPk && pk !in s.grants && Inv(s)
    ensures pk < Next(s, l).nextPk && pk !in Next(s, l).grants
  {
    if l.Commit? || l.Interrupt? {
      assert ThreadOk(s.threads[l.tid], s.grants, s.cbsds, s.now);
    }
  }

  lemma {:induction false} GoneStaysGone(s: State, run: seq<Label>, pk: int)
    requires Inv(s) && Legal(s, run) && pk < s.nextPk && pk !in s.grants
    ensures pk !in After(s, run).grants
    decreases |run|
  {
    if run != [] {
      StepKeepsGone(s, run[0], pk);
      StepKeepsInv(s, run[0]);
      GoneStaysGone(Next(s, run[0]), run[1..], pk);
    }
  }

  lemma StepNeverShortens(s: State, l: Label, lic: Option<string>, pk: int)
    requires Inv(s) && NoneBehind(s, lic) && Enabled(s, l) && pk in s.grants && pk in Next(s, l).grants
    ensures Ahead(s.grants[pk].row, Next(s, l).grants[pk].row, lic) && Follows(s.grants[pk], Next(s, l).grants[pk])
  {
    if l.Commit? || l.Interrupt? {
      assert ThreadOk(s.threads[l.tid], s.grants, s.cbsds, s.now);
      CommitNeverShortens(s, l.tid, lic, pk);
      CommitEffect(s, l.tid);
    }
  }

  lemma {:induction false} RunKeepsAhead(s: State, run: seq<Label>, lic: Option<string>)
    requires Inv(s) && AllLicensed(s, lic) && NoneBehind(s, lic) && Legal(s, run) && (lic.Some? ==> LeavesAlone(run, lic.value))
    ensures NoneBehind(After(s, run), lic)
    decreases |run|
  {
    if run != [] {
      StepKeepsInv(s, run[0]);
      StepKeepsLicensed(s, run[0], lic);
      StepKeepsAhead(s, run[0], lic);
      RunKeepsAhead(Next(s, run[0]), run[1..], lic);
    }
  }

  lemma {:induction false} RunNeverShortens(s: State, run: seq<Label>, lic: Option<string>, pk: int)
    requires Inv(s) && AllLicensed(s, lic) && NoneBehind(s, lic) && Legal(s, run) && (lic.Some? ==> LeavesAlone(run, lic.value))
    requires pk in s.grants && pk in After(s, run).grants && Concerns(s.grants[pk].row.channel, s.grants[pk].row.palId, lic)
    ensures s.grants[pk].row.expire <= After(s, run).grants[pk].row.expire
    decreases |run|
  {
    if run != [] {
      var next := Next(s, run[0]);
      StepKeepsInv(s, run[0]);
      if pk !in next.grants {
        NextPkStays(s, run[0], pk);
        GoneStaysGone(next, run[1..], pk);
      } else {
        StepKeepsLicensed(s, run[0], lic);
        StepKeepsAhead(s, run[0], lic);
        StepNeverShortens(s, run[0], lic, pk);
        RunNeverShortens(next, run[1..], lic, pk);
      }
    }
  }

  lemma NextPkStays(s: State, l: Label, pk: int)
    requires Inv(s) && Enabled(s, l) && pk in s.grants
    ensures pk < Next(s, l).nextPk
  {
  }

  lemma UnusedIsAhead(s: State, id: string)
    requires Inv(s) && NoneBehind(s, None) && Unused(s, id)
    ensures NoneBehind(s, Some(id))
  {
    forall t, pk | t in s.threads && pk in s.threads[t].local ensures Ahead(s.grants[pk].row, s.threads[t].local[pk].row, Some(id)) {
      assert Ahead(s.grants[pk].row, s.threads[t].local[pk].row, None);
    }
  }

  /** The committed expiry of a general-access grant never falls, over any stretch of any run. */
  lemma GeneralAccessNeverFalls(s: State, start: int, pals: map<string, PalRow>, past: seq<Label>, run: seq<Label>, pk: int)
    requires Reached(s, start, pals, past) && Legal(s, run)
    requires pk in s.grants && pk in After(s, run).grants && s.grants[pk].row.channel == GAA
    ensures s.grants[pk].row.expire <= After(s, run).grants[pk].row.expire
  {
    ReachedInv(s, start, pals, past);
    RunKeepsLicensed(Init(start, pals), past, None);
    RunKeepsAhead(Init(start, pals), past, None);
    RunNeverShortens(s, run, None, pk);
  }

  /** Nor does that of a grant on a PAL, over any stretch `run` that follows `mid`, when the PAL was not
      in use before `mid` and its record is left alone in both. */
  lemma LicensedNeverFalls(s0: State, start: int, pals: map<string, PalRow>, past: seq<Label>, mid: seq<Label>, run: seq<Label>,
                           id: string, pk: int)
    requires Reached(s0, start, pals, past) && Legal(s0, mid) && Legal(After(s0, mid), run)
    requires Unused(s0, id) && Consistent(s0.pals, id) && LeavesAlone(mid, id) && LeavesAlone(run, id)
    requires pk in After(s0, mid).grants && pk in After(After(s0, mid), run).grants
    requires After(s0, mid).grants[pk].row.palId == Some(id)
    ensures After(s0, mid).grants[pk].row.expire <= After(After(s0, mid), run).grants[pk].row.expire
  {
    ReachedInv(s0, start, pals, past);
    RunKeepsLicensed(Init(start, pals), past, None);
    RunKeepsAhead(Init(start, pals), past, None);
    UnusedIsLicensed(s0, id);
    UnusedIsAhead(s0, id);
    RunKeepsInv(s0, mid);
    RunKeepsLicensed(s0, mid, Some(id));
    RunKeepsAhead(s0, mid, Some(id));
    RunNeverShortens(After(s0, mid), run, Some(id), pk);
  }
}
