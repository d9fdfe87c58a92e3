/** One heartbeat request on a locked grant row (services/heartbeat_service.py).  Every stage reads
    the clock for itself. */
module Heartbeat {
  import opened Wrappers
  import opened Spectrum
  import opened SpectrumInquiry
  import opened Lifecycle

  /** What the request says and what the rest of the system answers about it while it is handled. */
  datatype Request = Request(
    claimsAuthorized: bool, renew: bool, peerHasGrant: bool, overActiveDpa: bool, federal: int, overWisp: bool,
    measError: Option<int>, nearDpa: bool)

  datatype Stage = Gate | Federal | Expiry | Expiring | Incumbent | Renewal | Transmit | Authorizing | Finished(code: int)

  /** Clock readings, one for each stage. */
  datatype Clock = Clock(gate: int, federal: int, expiry: int, expiring: int, incumbent: int, renewal: int, transmit: int, authorizing: int)

  const IDS: set<string> := {"cbsdId", "grantId"}
  const IDS_AND_STATE: set<string> := {"cbsdId", "grantId", "operationState"}

  function Reading(at: Clock, stage: Stage): (now: int) {
    match stage
    case Gate => at.gate
    case Federal => at.federal
    case Expiry => at.expiry
    case Expiring => at.expiring
    case Incumbent => at.incumbent
    case Renewal => at.renewal
    case Transmit => at.transmit
    case Authorizing => at.authorizing
    case Finished(_) => at.authorizing
  }

  ghost predicate ReadInOrder(at: Clock) {
    at.gate <= at.federal <= at.expiry <= at.expiring <= at.incumbent <= at.renewal <= at.transmit <= at.authorizing
  }

  function Rank(stage: Stage): (n: nat) {
    match stage
    case Gate => 8
    case Federal => 7
    case Expiry => 6
    case Expiring => 5
    case Incumbent => 4
    case Renewal => 3
    case Transmit => 2
    case Authorizing => 1
    case Finished(_) => 0
  }

  /** One stage: the row it leaves and the stage that follows. */
  function Advance(row: Row, stage: Stage, req: Request, pals: map<string, PalRow>, now: int): (r: (Row, Stage))
    ensures stage.Finished? || Rank(r.1) < Rank(stage)
  {
    match stage
    case Gate =>
      if req.peerHasGrant then (AfterEvent(row, Terminate, IDS, now), Finished(TERMINATED_GRANT))
      else (match HeartbeatGate(row, req.claimsAuthorized, now)
            case Refuse(code) => (row, Finished(code))
            case Pass => if req.overActiveDpa then (row, Finished(SUSPENDED_GRANT)) else (row, Federal))
    case Federal =>
      if req.federal == TERMINATED_GRANT then (WithState(row, TERMINATED), Finished(TERMINATED_GRANT)) else (row, Expiry)
    case Expiry => if row.expire <= now then (row, Expiring) else (row, Incumbent)
    case Expiring => (AfterEvent(row, Expire, IDS, now), Finished(INVALID_PARAM))
    case Incumbent =>
      if req.overWisp then (AfterEvent(row, Terminate, IDS, now), Finished(TERMINATED_GRANT))
      else if req.federal == SUSPENDED_GRANT then (row, Finished(SUSPENDED_GRANT))
      else if req.measError.Some? then (row, Finished(req.measError.value))
      else (row, if req.renew then Renewal else Transmit)
    case Renewal =>
      (match ComputeRenewal(row, pals, now)
       case Err(_) => (row, Finished(INVALID_PARAM))
       case Ok(expire) => (Renewed(row, pals, expire), Transmit))
    case Transmit => (row.(tx := TransmitExpireTime(now, req.nearDpa, row.expire)), Authorizing)
    case Authorizing => (AfterEvent(row, Authorize, IDS_AND_STATE, now), Finished(SUCCESS))
    case Finished(_) => (row, stage)
  }

  /** The stages from this one to the end. */
  function Handled(row: Row, stage: Stage, req: Request, pals: map<string, PalRow>, at: Clock): (r: (Row, int))
    decreases Rank(stage)
  {
    if stage.Finished? then (row, stage.code)
    else
      var (next, then1) := Advance(row, stage, req, pals, Reading(at, stage));
      Handled(next, then1, req, pals, at)
  }

  // ----------------------------------------------- the answers, field by field

  /** A row as the system stores it, the clock reading `now` included. */
  predicate Stored(row: Row, now: int) {
    row.raw != Some(REQUESTED) && (row.raw == Some(EXPIRED) ==> row.expire <= now)
  }

  /** The request gets past the grant's own state. */
  predicate GoesOn(row: Row, req: Request, now: int) {
    HasRunOut(row, now) || IsAuthorized(row, now) || (IsGranted(row, now) && !req.claimsAuthorized)
  }

  /** What a grant's own state, a peer's grant or an active DPA answers. */
  ghost predicate EarlyAnswers(row: Row, req: Request, at: Clock, after: Row, code: int) {
    && (req.peerHasGrant ==>
          && code == 500
          && (InForce(row, at.gate) ==> after == row.(raw := Some(TERMINATED), terminated := true))
          && (Over(row, at.gate) ==> after == row))
    && (!req.peerHasGrant ==>
          && (IsTerminated(row) ==> code == 500 && after == row)
          && (row.raw == Some(RELINQUISHED) ==> code == 103 && after == row)
          && (row.raw == Some(SUSPENDED) && at.gate < row.expire ==> code == 501 && after == row)
          && (IsGranted(row, at.gate) && req.claimsAuthorized ==> code == 502 && after == row)
          && (GoesOn(row, req, at.gate) && req.overActiveDpa ==> code == 501 && after == row))
  }

  /** What comes after the DPA test: federal termination, expiry, and what is asked of a grant that
      has not run out. */
  ghost predicate LateAnswers(row: Row, req: Request, pals: map<string, PalRow>, at: Clock, after: Row, code: int) {
    !req.peerHasGrant && GoesOn(row, req, at.gate) && !req.overActiveDpa ==> FederalAnswers(row, req, pals, at, after, code)
  }

  ghost predicate FederalAnswers(row: Row, req: Request, pals: map<string, PalRow>, at: Clock, after: Row, code: int) {
    && (req.federal == 500 ==> code == 500 && after == row.(raw := Some(TERMINATED), terminated := true))
    && (req.federal != 500 && row.expire <= at.expiry ==> code == 103 && after == row.(raw := Some(EXPIRED), terminated := true))
    && (req.federal != 500 && at.expiry < row.expire ==> TimelyAnswers(row, req, pals, at, after, code))
  }

  ghost predicate TimelyAnswers(row: Row, req: Request, pals: map<string, PalRow>, at: Clock, after: Row, code: int) {
    && (req.overWisp ==>
          && code == 500
          && after == if at.incumbent < row.expire then row.(raw := Some(TERMINATED), terminated := true) else row)
    && (!req.overWisp && req.federal == 501 ==> code == 501 && after == row)
    && (!req.overWisp && req.federal != 501 && req.measError.Some? ==> code == req.measError.value && after == row)
    && (!req.overWisp && req.federal != 501 && req.measError.None? ==>
          if req.renew && !MayRenew(row, pals, at.renewal) then code == 103 && after == row
          else code == 0 && Succeeded(row, req, pals, at, after))
  }

  /** The row after a success: renewed if that was asked, with a new transmit time, AUTHORIZED unless it
      has run out meanwhile. */
  ghost predicate Succeeded(row: Row, req: Request, pals: map<string, PalRow>, at: Clock, after: Row) {
    && (!req.renew ==> after.expire == row.expire && after.storedCap == row.storedCap)
    && (req.renew ==>
          RenewalInFields(pals, at.renewal, row, row.(expire := after.expire, storedCap := after.storedCap), Ok(after.expire)))
    && (req.nearDpa ==> after.tx == if after.expire < at.transmit + 240 then after.expire else at.transmit + 240)
    && (!req.nearDpa ==> after.tx == if after.expire < at.transmit + 60 then after.expire else at.transmit + 60)
    && after == if at.authorizing < after.expire
                then row.(expire := after.expire, storedCap := after.storedCap, tx := after.tx, raw := Some(AUTHORIZED),
                          authorized := true, terminated := false)
                else row.(expire := after.expire, storedCap := after.storedCap, tx := after.tx)
  }

  /** Success, in the fields of row and request. */
  ghost predicate SucceedsExactly(row: Row, req: Request, pals: map<string, PalRow>, at: Clock, code: int) {
    code == 0
    <==> (!req.peerHasGrant && !req.overActiveDpa && req.federal != 500 && req.federal != 501 && !req.overWisp && req.measError.None?
          && (IsAuthorized(row, at.gate) || (IsGranted(row, at.gate) && !req.claimsAuthorized)) && at.expiry < row.expire
          && (req.renew ==> MayRenew(row, pals, at.renewal)))
  }

  method ProcessHeartbeat(grant: Grant, req: Request, pals: map<string, PalRow>, at: Clock) returns (code: int)
    modifies grant
    ensures (grant.row, code) == Handled(old(grant.row), Gate, req, pals, at)
    ensures ReadInOrder(at) && Stored(old(grant.row), at.gate) ==>
              && EarlyAnswers(old(grant.row), req, at, grant.row, code)
              && LateAnswers(old(grant.row), req, pals, at, grant.row, code)
              && (req.measError != Some(0) ==> SucceedsExactly(old(grant.row), req, pals, at, code))
  {
    if req.peerHasGrant {
      var _ := grant.ApplyGrantEvent(Terminate, IDS, at.gate);
      return TERMINATED_GRANT;
    }
    match HeartbeatGate(grant.row, req.claimsAuthorized, at.gate) {
      case Refuse(c) => return c;
      case Pass =>
    }
    if req.overActiveDpa {
      return SUSPENDED_GRANT;
    }
    code := AfterDpa(grant, req, pals, at);
  }

  method AfterDpa(grant: Grant, req: Request, pals: map<string, PalRow>, at: Clock) returns (code: int)
    modifies grant
    ensures (grant.row, code) == Handled(old(grant.row), Federal, req, pals, at)
    ensures ReadInOrder(at) && Stored(old(grant.row), at.gate) && GoesOn(old(grant.row), req, at.gate) ==>
              FederalAnswers(old(grant.row), req, pals, at, grant.row, code)
  {
    if req.federal == TERMINATED_GRANT {
      grant.PersistFederalTermination(IDS, at.federal);
      return TERMINATED_GRANT;
    }
    if grant.row.expire <= at.expiry {
      var _ := grant.ApplyGrantEvent(Expire, IDS, at.expiring);
      return INVALID_PARAM;
    }
    code := AfterExpiry(grant, req, pals, at);
  }

  method AfterExpiry(grant: Grant, req: Request, pals: map<string, PalRow>, at: Clock) returns (code: int)
    modifies grant
    ensures (grant.row, code) == Handled(old(grant.row), Incumbent, req, pals, at)
    ensures ReadInOrder(at) && InForce(old(grant.row), at.expiry) ==> TimelyAnswers(old(grant.row), req, pals, at, grant.row, code)
  {
    if req.overWisp {
      var _ := grant.ApplyGrantEvent(Terminate, IDS, at.incumbent);
      return TERMINATED_GRANT;
    }
    if req.federal == SUSPENDED_GRANT {
      return SUSPENDED_GRANT;
    }
    if req.measError.Some? {
      return req.measError.value;
    }
    code := RenewAndAuthorize(grant, req, pals, at);
  }

  method RenewAndAuthorize(grant: Grant, req: Request, pals: map<string, PalRow>, at: Clock) returns (code: int)
    modifies grant
    ensures (grant.row, code) == Handled(old(grant.row), if req.renew then Renewal else Transmit, req, pals, at)
    ensures ReadInOrder(at) && InForce(old(grant.row), at.expiry) ==>
              if req.renew && !MayRenew(old(grant.row), pals, at.renewal) then code == 103 && grant.row == old(grant.row)
              else code == 0 && Succeeded(old(grant.row), req, pals, at, grant.row)
  {
    if req.renew {
      if grant.row.raw != Some(REQUESTED) {
        RenewalPossibleExactly(grant.row, pals, at.renewal);
      }
      var renewed := grant.ApplyRenewal(pals, at.renewal);
      if renewed.Err? {
        return INVALID_PARAM;
      }
    }
    TransmitAndAuthorize(grant, req, pals, at);
    return SUCCESS;
  }

  /** New transmit time, then the AUTHORIZE event, whatever comes of it. */
  method TransmitAndAuthorize(grant: Grant, req: Request, pals: map<string, PalRow>, at: Clock)
    modifies grant
    ensures (grant.row, 0) == Handled(old(grant.row), Transmit, req, pals, at)
    ensures var row := old(grant.row);
            && (req.nearDpa ==> grant.row.tx == if row.expire < at.transmit + 240 then row.expire else at.transmit + 240)
            && (!req.nearDpa ==> grant.row.tx == if row.expire < at.transmit + 60 then row.expire else at.transmit + 60)
            && (InForce(row, at.authorizing) ==>
                  grant.row == row.(tx := grant.row.tx, raw := Some(AUTHORIZED), authorized := true, terminated := false))
            && (Over(row, at.authorizing) ==> grant.row == row.(tx := grant.row.tx))
  {
    var tx := TransmitExpireTime(at.transmit, req.nearDpa, grant.row.expire);
    grant.row := grant.row.(tx := tx);
    var _ := grant.ApplyGrantEvent(Authorize, IDS_AND_STATE, at.authorizing);
  }

  lemma RenewalPossibleExactly(row: Row, pals: map<string, PalRow>, now: int)
    requires row.raw != Some(REQUESTED)
    ensures ComputeRenewal(row, pals, now).Ok? <==> MayRenew(row, pals, now)
  {
    assert !LicenseRevoked(row, pals) ==> EndIs(row, pals, LicenseCap(row, pals));
    match row.raw
    case Some(GRANTED) =>
    case Some(AUTHORIZED) =>
    case Some(SUSPENDED) =>
    case _ =>
  }

  // ---------------------------------------------------------------- properties

  predicate Reaches(row: Row, req: Request, at: Clock) {
    !req.peerHasGrant && HeartbeatGate(row, req.claimsAuthorized, at.gate) == Pass && !req.overActiveDpa
  }

  /** Measurement errors have codes of their own. */
  predicate OwnMeasCode(req: Request) {
    req.measError.Some? ==> req.measError.value !in {SUCCESS, TERMINATED_GRANT, SUSPENDED_GRANT}
  }

  lemma HandledFromIncumbent(row: Row, req: Request, pals: map<string, PalRow>, at: Clock)
    ensures Handled(row, Incumbent, req, pals, at) ==
            if req.overWisp then (AfterEvent(row, Terminate, IDS, at.incumbent), TERMINATED_GRANT)
            else if req.federal == SUSPENDED_GRANT then (row, SUSPENDED_GRANT)
            else if req.measError.Some? then (row, req.measError.value)
            else if req.renew && ComputeRenewal(row, pals, at.renewal).Err? then (row, INVALID_PARAM)
            else (Granted(if req.renew then Renewed(row, pals, ComputeRenewal(row, pals, at.renewal).value) else row, req, at), SUCCESS)
  {
    var renewal := ComputeRenewal(row, pals, at.renewal);
    var kept := if req.renew && renewal.Ok? then Renewed(row, pals, renewal.value) else row;
    var timed := kept.(tx := TransmitExpireTime(at.transmit, req.nearDpa, kept.expire));
    assert Handled(kept, Transmit, req, pals, at) == Handled(timed, Authorizing, req, pals, at)
        == Handled(AfterEvent(timed, Authorize, IDS_AND_STATE, at.authorizing), Finished(SUCCESS), req, pals, at);
  }

  /** What a successful heartbeat does to the row once it has been renewed or not. */
  function Granted(row: Row, req: Request, at: Clock): (r: Row) {
    AfterEvent(row.(tx := TransmitExpireTime(at.transmit, req.nearDpa, row.expire)), Authorize, IDS_AND_STATE, at.authorizing)
  }

  lemma HandledFromGate(row: Row, req: Request, pals: map<string, PalRow>, at: Clock)
    ensures Reaches(row, req, at) ==>
              Handled(row, Gate, req, pals, at) ==
              if req.federal == TERMINATED_GRANT then (WithState(row, TERMINATED), TERMINATED_GRANT)
              else if row.expire <= at.expiry then (AfterEvent(row, Expire, IDS, at.expiring), INVALID_PARAM)
              else Handled(row, Incumbent, req, pals, at)
    ensures !Reaches(row, req, at) && !req.peerHasGrant ==>
              && Handled(row, Gate, req, pals, at).0 == row
              && Handled(row, Gate, req, pals, at).1 in {INVALID_PARAM, TERMINATED_GRANT, SUSPENDED_GRANT, UNSYNC_OP_PARAM}
  {
    if Reaches(row, req, at) && req.federal != TERMINATED_GRANT && row.expire <= at.expiry {
      assert Handled(row, Federal, req, pals, at) == Handled(row, Expiry, req, pals, at) == Handled(row, Expiring, req, pals, at);
    }
  }

  /** A heartbeat succeeds exactly when no peer, activation, incumbent, expiry or renewal stands
      against it. */
  lemma SuccessExactly(row: Row, req: Request, pals: map<string, PalRow>, at: Clock)
    requires OwnMeasCode(req)
    ensures Handled(row, Gate, req, pals, at).1 == SUCCESS
            <==> (Reaches(row, req, at) && req.federal !in {TERMINATED_GRANT, SUSPENDED_GRANT} && at.expiry < row.expire
                  && !req.overWisp && req.measError.None? && (req.renew ==> ComputeRenewal(row, pals, at.renewal).Ok?))
  {
    HandledFromGate(row, req, pals, at);
    HandledFromIncumbent(row, req, pals, at);
  }

  /** 500 is final: the row it leaves is dead.  501 is transient: it leaves the row as it was. */
  lemma RefusalsPersist(row: Row, req: Request, pals: map<string, PalRow>, at: Clock)
    requires OwnMeasCode(req) && ReadInOrder(at) && Resolve(row, at.gate) != REQUESTED && FlagsAgree(row) && row.raw.Some?
    ensures Handled(row, Gate, req, pals, at).1 == TERMINATED_GRANT ==>
              Dead(Handled(row, Gate, req, pals, at).0, at.authorizing)
    ensures Handled(row, Gate, req, pals, at).1 == SUSPENDED_GRANT ==> Handled(row, Gate, req, pals, at).0 == row
  {
    HandledFromGate(row, req, pals, at);
    HandledFromIncumbent(row, req, pals, at);
  }

  /** A success answered so late that the grant has expired meanwhile gives no time to transmit. */
  lemma SuccessAuthorizesOrIsOver(row: Row, req: Request, pals: map<string, PalRow>, at: Clock)
    requires OwnMeasCode(req) && ReadInOrder(at) && row.raw.Some? && FlagsAgree(row) && Live(row.raw.value)
    requires Handled(row, Gate, req, pals, at).1 == SUCCESS
    ensures var after := Handled(row, Gate, req, pals, at).0;
            && after.tx <= after.expire && after.tx <= at.transmit + 240
            && (Resolve(after, at.authorizing) == AUTHORIZED || after.tx <= at.authorizing)
  {
    SuccessExactly(row, req, pals, at);
    HandledFromGate(row, req, pals, at);
    HandledFromIncumbent(row, req, pals, at);
  }
}
