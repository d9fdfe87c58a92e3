/** The grant lifecycle (services/lifecycle.py), renewal (services/grant_renewal.py) and transmit
    times (services/dpa_neighborhood.py).  Times are whole seconds. */
module Lifecycle {
  import opened Wrappers
  import opened Spectrum
  import opened SpectrumInquiry

  const SUCCESS: int := 0
  const MISSING_PARAM: int := 102
  const INVALID_PARAM: int := 103
  const TERMINATED_GRANT: int := 500
  const SUSPENDED_GRANT: int := 501
  const UNSYNC_OP_PARAM: int := 502

  const DEFAULT_GRANT_DURATION_SEC: int := 900
  const TRANSMIT_EXPIRE_SEC: int := 60
  const DPA_NEIGHBORHOOD_TRANSMIT_EXPIRE_SEC: int := 240
  const MAX_TRANSMIT_EXPIRE_OUTSIDE_SEC: int := 24 * 3600 - 60

  datatype GrantState = REQUESTED | GRANTED | AUTHORIZED | SUSPENDED | TERMINATED | EXPIRED | RELINQUISHED

  datatype GrantEvent = Approve | Authorize | Suspend | Terminate | Expire | Relinquish

  /** A grant row.  `raw` is the lifecycle column, None when it is blank or not a known state;
      `palId` and `storedCap` are the authorization context kept in the row, `requestedEirp` is the
      power in the stored request, None when that cannot be read. */
  datatype Row = Row(
    grantId: string, cbsd: string, low: int, high: int, channel: Kind, palId: Option<string>, storedCap: Option<int>,
    maxEirp: Option<real>, requestedEirp: Option<real>, expire: int, tx: int, raw: Option<GrantState>, authorized: bool, terminated: bool)

  datatype Outcome = Outcome(ok: bool, code: int, to: Option<GrantState>, idempotentHit: bool)

  predicate Terminal(s: GrantState) {
    s in {TERMINATED, EXPIRED, RELINQUISHED}
  }

  predicate Live(s: GrantState) {
    s in {GRANTED, AUTHORIZED, SUSPENDED}
  }

  // ------------------------------------------------------ transition table

  function Sources(e: GrantEvent): (s: set<GrantState>) {
    match e
    case Approve => {REQUESTED}
    case _ => {GRANTED, AUTHORIZED, SUSPENDED}
  }

  function Target(e: GrantEvent): (s: GrantState) {
    match e
    case Approve => GRANTED
    case Authorize => AUTHORIZED
    case Suspend => SUSPENDED
    case Terminate => TERMINATED
    case Expire => EXPIRED
    case Relinquish => RELINQUISHED
  }

  function SuccessCode(e: GrantEvent): (c: int) {
    match e
    case Suspend => SUSPENDED_GRANT
    case Terminate => TERMINATED_GRANT
    case Expire => INVALID_PARAM
    case _ => SUCCESS
  }

  predicate Idempotent(e: GrantEvent) {
    e in {Authorize, Suspend, Expire}
  }

  function Required(e: GrantEvent): (fields: set<string>) {
    match e
    case Approve => {"cbsdId", "operationParam"}
    case Authorize => {"cbsdId", "grantId", "operationState"}
    case _ => {"cbsdId", "grantId"}
  }

  predicate Expired(row: Row, now: int) {
    row.expire <= now
  }

  /** services/lifecycle.py: the column wins, except that a live column past its expiry is EXPIRED. */
  function Resolve(row: Row, now: int): (s: GrantState) {
    match row.raw
    case Some(state) => if Live(state) && Expired(row, now) then EXPIRED else state
    case None =>
      if row.terminated then TERMINATED
      else if Expired(row, now) then EXPIRED
      else if row.authorized then AUTHORIZED
      else GRANTED
  }

  /** `payload` is the set of fields that carry a usable value. */
  function Evaluate(e: GrantEvent, current: GrantState, payload: set<string>): (o: Outcome) {
    if !(Required(e) <= payload) then Outcome(false, MISSING_PARAM, None, false)
    else if Terminal(current) && e != Approve then
      if Idempotent(e) && current == Target(e) then Outcome(true, SuccessCode(e), Some(Target(e)), true)
      else Outcome(false, INVALID_PARAM, None, false)
    else if current !in Sources(e) then Outcome(false, INVALID_PARAM, None, false)
    else Outcome(true, SuccessCode(e), Some(Target(e)), Idempotent(e) && current == Target(e))
  }

  function WithState(row: Row, s: GrantState): (r: Row) {
    match s
    case AUTHORIZED => row.(raw := Some(s), authorized := true, terminated := false)
    case GRANTED => row.(raw := Some(s), authorized := false, terminated := false)
    case SUSPENDED => row.(raw := Some(s), terminated := false)
    case REQUESTED => row.(raw := Some(s))
    case _ => row.(raw := Some(s), terminated := true)
  }

  function AfterEvent(row: Row, e: GrantEvent, payload: set<string>, now: int): (r: Row) {
    var o := Evaluate(e, Resolve(row, now), payload);
    if o.ok && o.to.Some? then WithState(row, o.to.value) else row
  }

  // -------------------------------------------------- renewal and times

  /** A PAL table row: status VALID or not, the expiration column, the one inside its JSON record. */
  datatype PalRow = PalRow(valid: bool, column: Option<int>, json: Option<int>)

  /** The licence end a renewal may use: live record first, else the value stored with the grant. */
  function LicenseCap(row: Row, pals: map<string, PalRow>): (cap: Option<int>) {
    if row.palId.Some? && row.palId.value in pals then
      var pal := pals[row.palId.value];
      if !pal.valid then None
      else if pal.column.Some? then pal.column
      else if pal.json.Some? then pal.json
      else row.storedCap
    else row.storedCap
  }

  predicate LicenseRevoked(row: Row, pals: map<string, PalRow>) {
    row.palId.Some? && row.palId.value in pals && !pals[row.palId.value].valid
  }

  datatype RenewalRefusal = TerminalOrExpired | PalLicenseInvalid | PalLicenseMissing | PalLicenseExpired

  function ComputeRenewal(row: Row, pals: map<string, PalRow>, now: int): (r: Result<int, RenewalRefusal>) {
    if Terminal(Resolve(row, now)) || row.terminated then Err(TerminalOrExpired)
    else if Expired(row, now) then Err(TerminalOrExpired)
    else
      var default := now + DEFAULT_GRANT_DURATION_SEC;
      if row.channel == PAL then
        if LicenseRevoked(row, pals) then Err(PalLicenseInvalid)
        else match LicenseCap(row, pals)
        case None => Err(PalLicenseMissing)
        case Some(cap) => if cap <= now then Err(PalLicenseExpired) else Ok(Min(default, cap))
      else Ok(default)
  }

  function Renewed(row: Row, pals: map<string, PalRow>, newExpire: int): (r: Row) {
    var moved := row.(expire := newExpire);
    if row.channel == PAL && LicenseCap(row, pals).Some? then moved.(storedCap := LicenseCap(row, pals)) else moved
  }

  function GrantExpireTime(now: int, cap: Option<int>): (t: int) {
    if cap.Some? then Min(now + DEFAULT_GRANT_DURATION_SEC, cap.value) else now + DEFAULT_GRANT_DURATION_SEC
  }

  function TransmitHorizon(neighborhoodCap: bool): (sec: int)
    ensures 0 < sec <= 240
  {
    Min(if neighborhoodCap then DPA_NEIGHBORHOOD_TRANSMIT_EXPIRE_SEC else TRANSMIT_EXPIRE_SEC,
        MAX_TRANSMIT_EXPIRE_OUTSIDE_SEC)
  }

  function TransmitExpireTime(now: int, neighborhoodCap: bool, grantExpire: int): (t: int)
    ensures t <= grantExpire && t <= now + 240
    ensures now < grantExpire ==> now < t
    ensures neighborhoodCap ==> t == if grantExpire < now + 240 then grantExpire else now + 240
    ensures !neighborhoodCap ==> t == if grantExpire < now + 60 then grantExpire else now + 60
  {
    Min(now + TransmitHorizon(neighborhoodCap), grantExpire)
  }

  // ------------------------------------------------- the rules, field by field

  /** The grant may be used at `now`. */
  predicate InForce(row: Row, now: int) {
    now < row.expire && (row.raw in {Some(GRANTED), Some(AUTHORIZED), Some(SUSPENDED)} || (row.raw.None? && !row.terminated))
  }

  /** The grant has been ended, by an event or by the clock. */
  predicate Over(row: Row, now: int) {
    || row.raw in {Some(TERMINATED), Some(EXPIRED), Some(RELINQUISHED)}
    || (row.raw in {Some(GRANTED), Some(AUTHORIZED), Some(SUSPENDED)} && row.expire <= now)
    || (row.raw.None? && (row.terminated || row.expire <= now))
  }

  predicate IsTerminated(row: Row) {
    row.raw == Some(TERMINATED) || (row.raw.None? && row.terminated)
  }

  /** Marked EXPIRED, or past its end without having been ended otherwise. */
  predicate HasRunOut(row: Row, now: int) {
    || row.raw == Some(EXPIRED)
    || (row.raw in {Some(GRANTED), Some(AUTHORIZED), Some(SUSPENDED)} && row.expire <= now)
    || (row.raw.None? && !row.terminated && row.expire <= now)
  }

  predicate IsGranted(row: Row, now: int) {
    now < row.expire && (row.raw == Some(GRANTED) || (row.raw.None? && !row.terminated && !row.authorized))
  }

  predicate IsAuthorized(row: Row, now: int) {
    now < row.expire && (row.raw == Some(AUTHORIZED) || (row.raw.None? && !row.terminated && row.authorized))
  }

  /** What an event does to a grant in force, to one that is over, and when a required field is missing. */
  ghost predicate EventInFields(e: GrantEvent, payload: set<string>, now: int, before: Row, after: Row, o: Outcome) {
    var named := {"cbsdId", "grantId"} <= payload;
    var refused := !o.ok && o.code == 103 && after == before;
    && (!named && e != Approve ==> !o.ok && o.code == 102 && after == before)
    && (named && e == Authorize && "operationState" !in payload ==> !o.ok && o.code == 102 && after == before)
    && (named && e == Terminate ==>
          && (InForce(before, now) ==> o.ok && o.code == 500 && after == before.(raw := Some(TERMINATED), terminated := true))
          && (Over(before, now) ==> refused))
    && (named && e == Relinquish ==>
          && (InForce(before, now) ==> o.ok && o.code == 0 && after == before.(raw := Some(RELINQUISHED), terminated := true))
          && (Over(before, now) ==> refused))
    && (named && e == Suspend ==>
          && (InForce(before, now) ==> o.ok && o.code == 501 && after == before.(raw := Some(SUSPENDED), terminated := false))
          && (Over(before, now) ==> refused))
    && (named && e == Authorize && "operationState" in payload ==>
          && (InForce(before, now) ==>
                o.ok && o.code == 0 && after == before.(raw := Some(AUTHORIZED), authorized := true, terminated := false))
          && (Over(before, now) ==> refused))
    && (named && e == Expire ==>
          if Over(before, now) && (before.raw in {Some(TERMINATED), Some(RELINQUISHED)} || (before.raw.None? && before.terminated))
          then refused
          else InForce(before, now) || Over(before, now) ==>
                 o.ok && o.code == 103 && after == before.(raw := Some(EXPIRED), terminated := true))
  }

  /** `end` is the licence end a renewal goes by: the column of the PAL record, else the date inside it,
      else, with neither or with no record, the one stored with the grant. */
  predicate EndIs(row: Row, pals: map<string, PalRow>, end: Option<int>) {
    if row.palId.Some? && row.palId.value in pals && pals[row.palId.value].column.Some? then end == pals[row.palId.value].column
    else if row.palId.Some? && row.palId.value in pals && pals[row.palId.value].json.Some? then end == pals[row.palId.value].json
    else end == row.storedCap
  }

  /** A renewal at `now` would be granted. */
  ghost predicate MayRenew(row: Row, pals: map<string, PalRow>, now: int) {
    && InForce(row, now) && !row.terminated
    && (row.channel == PAL ==>
          && !(row.palId.Some? && row.palId.value in pals && !pals[row.palId.value].valid)
          && forall end: Option<int> :: EndIs(row, pals, end) ==> end.Some? && now < end.value)
  }

  /** Renewal for 900 s, a PAL grant no further than its licence. */
  ghost predicate RenewalInFields(pals: map<string, PalRow>, now: int, before: Row, after: Row, r: Result<int, RenewalRefusal>) {
    var refused := r.Err? && after == before;
    var revoked := before.palId.Some? && before.palId.value in pals && !pals[before.palId.value].valid;
    && (Over(before, now) || before.terminated || before.expire <= now ==> refused)
    && (InForce(before, now) && !before.terminated ==>
          && (before.channel == GAA ==> r == Ok(now + 900) && after == before.(expire := now + 900))
          && (before.channel == PAL && revoked ==> refused)
          && (before.channel == PAL && !revoked ==>
                forall end: Option<int> :: EndIs(before, pals, end) ==>
                  && (end.None? || end.value <= now ==> refused)
                  && (end.Some? && now < end.value < now + 900 ==>
                        r == Ok(end.value) && after == before.(expire := end.value, storedCap := end))
                  && (end.Some? && now + 900 <= end.value ==>
                        r == Ok(now + 900) && after == before.(expire := now + 900, storedCap := end))))
  }

  // ---------------------------------------------------------- the row object

  class Grant {
    var row: Row

    constructor (row: Row)
      ensures this.row == row
    {
      this.row := row;
    }

    /** Sets the column and keeps the two legacy flags in step. */
    method ApplyGrantState(s: GrantState)
      modifies this
      ensures row == WithState(old(row), s)
      ensures row == old(row).(raw := Some(s), authorized := row.authorized, terminated := row.terminated)
      ensures s in {TERMINATED, EXPIRED, RELINQUISHED} ==> row.terminated && row.authorized == old(row).authorized
      ensures s in {GRANTED, AUTHORIZED, SUSPENDED} ==> !row.terminated
      ensures s == AUTHORIZED ==> row.authorized
      ensures s == GRANTED ==> !row.authorized
      ensures s in {SUSPENDED, REQUESTED} ==> row.authorized == old(row).authorized
      ensures s == REQUESTED ==> row.terminated == old(row).terminated
    {
      row := row.(raw := Some(s));
      if s == AUTHORIZED {
        row := row.(authorized := true);
        row := row.(terminated := false);
      } else if s == GRANTED {
        row := row.(authorized := false);
        row := row.(terminated := false);
      } else if s == SUSPENDED {
        row := row.(terminated := false);
      } else if s in {TERMINATED, EXPIRED, RELINQUISHED} {
        row := row.(terminated := true);
      }
    }

    method ApplyGrantEvent(e: GrantEvent, payload: set<string>, now: int) returns (o: Outcome)
      modifies this
      ensures o == Evaluate(e, Resolve(old(row), now), payload)
      ensures row == AfterEvent(old(row), e, payload, now)
      ensures EventInFields(e, payload, now, old(row), row, o)
    {
      o := Evaluate(e, Resolve(row, now), payload);
      if !o.ok || o.to.None? {
        return;
      }
      ApplyGrantState(o.to.value);
    }

    /** Federal 500: terminate even a row whose expiry already makes it terminal. */
    method PersistFederalTermination(payload: set<string>, now: int)
      requires {"cbsdId", "grantId"} <= payload
      modifies this
      ensures row == WithState(old(row), TERMINATED)
      ensures row == old(row).(raw := Some(TERMINATED), terminated := true)
    {
      var o := ApplyGrantEvent(Terminate, payload, now);
      if !o.ok {
        ApplyGrantState(TERMINATED);
      }
    }

    method ApplyRenewal(pals: map<string, PalRow>, now: int) returns (r: Result<int, RenewalRefusal>)
      modifies this
      ensures r == ComputeRenewal(old(row), pals, now)
      ensures row == if r.Ok? then Renewed(old(row), pals, r.value) else old(row)
      ensures RenewalInFields(pals, now, old(row), row, r)
    {
      r := ComputeRenewal(row, pals, now);
      if r.Err? {
        return;
      }
      var cap := LicenseCap(row, pals);
      row := row.(expire := r.value);
      if row.channel == PAL {
        if cap.Some? {
          row := row.(storedCap := cap);
        }
      }
    }
  }

  // ------------------------------------------------------------ heartbeat gate

  datatype Gate = Pass | Refuse(code: int)

  function HeartbeatGate(row: Row, claimsAuthorized: bool, now: int): (g: Gate) {
    var current := Resolve(row, now);
    if current == TERMINATED then Refuse(TERMINATED_GRANT)
    else if current == RELINQUISHED then Refuse(INVALID_PARAM)
    else if claimsAuthorized && current == GRANTED then Refuse(UNSYNC_OP_PARAM)
    else if current == SUSPENDED then Refuse(SUSPENDED_GRANT)
    else Pass
  }

  // ---------------------------------------------------------------- properties

  /** The terminated flag says the same as the column. */
  predicate FlagsAgree(row: Row) {
    row.raw.Some? ==> (row.terminated <==> Terminal(row.raw.value))
  }

  predicate Dead(row: Row, now: int) {
    Terminal(Resolve(row, now))
  }

  /** Time alone never brings a grant back, and never changes which terminal state it is in. */
  lemma DeadWithTime(row: Row, t: int, u: int)
    requires t <= u && Dead(row, t)
    ensures Resolve(row, u) == Resolve(row, t)
  {
  }

  /** On a dead grant an event changes nothing that is observable later; EXPIRE may only write the
      expiry down. */
  lemma EventOnDead(row: Row, e: GrantEvent, payload: set<string>, now: int)
    requires Dead(row, now)
    ensures AfterEvent(row, e, payload, now) == row
            || (e == Expire && Resolve(row, now) == EXPIRED && AfterEvent(row, e, payload, now) == WithState(row, EXPIRED))
    ensures forall t :: now <= t ==> Resolve(AfterEvent(row, e, payload, now), t) == Resolve(row, now)
  {
    forall t | now <= t ensures Resolve(AfterEvent(row, e, payload, now), t) == Resolve(row, now) {
      DeadWithTime(row, now, t);
    }
  }

  /** An event never clears the terminated flag, and keeps flag and column in agreement. */
  lemma EventNeverRevives(row: Row, e: GrantEvent, payload: set<string>, now: int)
    requires FlagsAgree(row)
    ensures FlagsAgree(AfterEvent(row, e, payload, now))
    ensures row.terminated ==> AfterEvent(row, e, payload, now).terminated
    ensures AfterEvent(row, e, payload, now).terminated && !row.terminated ==> e in {Terminate, Expire, Relinquish}
  {
  }

  /** A renewed grant lives past now, at most one grant period, and never past its licence. */
  lemma RenewalBounds(row: Row, pals: map<string, PalRow>, now: int)
    requires ComputeRenewal(row, pals, now).Ok?
    ensures now < ComputeRenewal(row, pals, now).value <= now + DEFAULT_GRANT_DURATION_SEC
    ensures row.channel == PAL ==>
              LicenseCap(row, pals).Some? && ComputeRenewal(row, pals, now).value <= LicenseCap(row, pals).value
              && Renewed(row, pals, ComputeRenewal(row, pals, now).value).storedCap == LicenseCap(row, pals)
    ensures !Dead(row, now) && !row.terminated
    ensures FlagsAgree(row) ==> !Dead(Renewed(row, pals, ComputeRenewal(row, pals, now).value), now)
  {
  }

  /** A row whose expiry was set by an earlier grant or renewal is never shortened by a renewal, as
      long as the licence end has not moved below it. */
  lemma RenewalNeverShortens(row: Row, pals: map<string, PalRow>, now: int, setAt: int)
    requires setAt <= now && row.expire <= setAt + DEFAULT_GRANT_DURATION_SEC
    requires row.channel == PAL && LicenseCap(row, pals).Some? ==> row.expire <= LicenseCap(row, pals).value
    requires ComputeRenewal(row, pals, now).Ok?
    ensures ComputeRenewal(row, pals, now).value >= row.expire
  {
  }
}
