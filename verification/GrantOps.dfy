/** The request loops on the grant table as one session runs them (services/grant_service.py,
    relinquishment_service.py, deregistration_service.py, registration_service.py). */
module GrantOps {
  import opened Wrappers
  import opened Spectrum
  import opened SpectrumInquiry
  import opened Lifecycle
  import opened Heartbeat
  import opened GrantProtocol
  import Decisions
  import GrantChannel

  const INTERFERENCE: int := 400
  const GRANT_CONFLICT: int := 401

  datatype Table = Table(cbsds: set<string>, grants: Grants, nextPk: int)

  /** One grant request after the checks that precede the locks; `peerHas` and `overloads` are the
      answers of the peer records and of the interference admission, the readings those of the clock. */
  datatype Item = Item(plan: Plan, peerHas: bool, overloads: bool, expireReading: int, txReading: int)

  type Pending = map<string, seq<Range>>

  /** The clock reading at which each row is handled, by primary key. */
  type Clock = int -> int

  function PendingOf(pending: Pending, c: string): (r: seq<Range>) {
    if c in pending then pending[c] else []
  }

  /** The request with what the batch has granted before it. */
  function WithPending(item: Item, pending: Pending): (plan: Plan) {
    item.plan.(earlier := PendingOf(pending, item.plan.cbsd))
  }

  function GrantAnswer(t: Table, item: Item, pending: Pending): (code: int) {
    if item.plan.cbsd !in t.cbsds then INVALID_PARAM
    else if Conflicts(t.grants, WithPending(item, pending)) || item.peerHas then GRANT_CONFLICT
    else if item.overloads then INTERFERENCE
    else SUCCESS
  }

  datatype Progress = Progress(table: Table, pending: Pending, codes: seq<int>)

  function Stepped(p: Progress, item: Item): (r: Progress) {
    var code := GrantAnswer(p.table, item, p.pending);
    var c := item.plan.cbsd;
    if code != SUCCESS then p.(codes := p.codes + [code])
    else
      var entry := NewEntry(WithPending(item, p.pending), GrantExpireTime(item.expireReading, item.plan.cap), item.txReading);
      Progress(p.table.(grants := p.table.grants[p.table.nextPk := entry], nextPk := p.table.nextPk + 1),
               p.pending[c := PendingOf(p.pending, c) + [item.plan.range]], p.codes + [code])
  }

  /** The whole batch, one request after the other. */
  function Batch(t: Table, items: seq<Item>): (r: Progress)
    ensures |r.codes| == |items|
  {
    if items == [] then Progress(t, map[], []) else Stepped(Batch(t, items[..|items| - 1]), items[|items| - 1])
  }

  predicate Listed(row: Row, c: string, liveOnly: bool) {
    row.cbsd == c && (liveOnly ==> !row.terminated)
  }

  /** `rows` is what the query for the rows of a CBSD answers. */
  ghost predicate Lists(rows: seq<int>, grants: Grants, c: string, liveOnly: bool) {
    && (forall i :: 0 <= i < |rows| ==> rows[i] in grants && Listed(grants[rows[i]].row, c, liveOnly))
    && (forall pk :: pk in grants && Listed(grants[pk].row, c, liveOnly) ==> pk in rows)
  }

  lemma ExistingConflicts(grants: Grants, plan: Plan, rows: seq<int>, existing: seq<Range>)
    requires Lists(rows, grants, plan.cbsd, true) && |existing| == |rows|
    requires forall j :: 0 <= j < |rows| ==> existing[j] == Range(grants[rows[j]].row.low, grants[rows[j]].row.high)
    ensures (exists r :: r in existing + plan.earlier && Overlaps(r, plan.range)) <==> Conflicts(grants, plan)
  {
    forall r | r in existing && Overlaps(r, plan.range) ensures Conflicts(grants, plan) {
      var j :| 0 <= j < |existing| && existing[j] == r;
      var pk := rows[j];
      assert pk in grants && Listed(grants[pk].row, plan.cbsd, true);
    }
    forall pk | pk in grants && Listed(grants[pk].row, plan.cbsd, true)
      ensures Range(grants[pk].row.low, grants[pk].row.high) in existing
    {
      var j :| 0 <= j < |rows| && rows[j] == pk;
      assert existing[j] in existing;
    }
  }

  // ----------------------------------------------- the answers, field by field

  /** Some grant of the CBSD that is not flagged terminated meets the range. */
  predicate MeetsGrant(grants: Grants, c: string, low: int, high: int) {
    exists pk :: pk in grants && grants[pk].row.cbsd == c && !grants[pk].row.terminated
                 && grants[pk].row.low < high && low < grants[pk].row.high
  }

  predicate MeetsRange(ranges: seq<Range>, low: int, high: int) {
    exists k :: 0 <= k < |ranges| && ranges[k].low < high && low < ranges[k].high
  }

  /** An earlier request of the batch, for the same CBSD, has been granted a range that meets this one. */
  predicate MeetsEarlier(items: seq<Item>, codes: seq<int>, i: nat)
    requires i < |items| && i <= |codes|
  {
    exists j :: 0 <= j < i && codes[j] == 0 && items[j].plan.cbsd == items[i].plan.cbsd
                && items[j].plan.range.low < items[i].plan.range.high && items[i].plan.range.low < items[j].plan.range.high
  }

  /** The code of one request; `taken` says that its spectrum is in use. */
  predicate AnswerIs(code: int, item: Item, cbsds: set<string>, taken: bool) {
    && (code == 103 <==> item.plan.cbsd !in cbsds)
    && (code == 401 <==> item.plan.cbsd in cbsds && (taken || item.peerHas))
    && (code == 400 <==> item.plan.cbsd in cbsds && !taken && !item.peerHas && item.overloads)
    && (code == 0 <==> item.plan.cbsd in cbsds && !taken && !item.peerHas && !item.overloads)
  }

  /** The row of a grant just made: 900 s, or until the licence ends, and the time to transmit. */
  predicate IsNewGrant(row: Row, item: Item) {
    var plan := item.plan;
    && row.grantId == plan.grantId && row.cbsd == plan.cbsd && row.low == plan.range.low && row.high == plan.range.high
    && row.channel == plan.channel && row.palId == plan.palId && row.storedCap == plan.cap
    && row.maxEirp == Some(plan.maxEirp) && row.requestedEirp == Some(plan.maxEirp)
    && row.raw == Some(GRANTED) && !row.terminated && !row.authorized
    && (plan.cap.None? ==> row.expire == item.expireReading + 900)
    && (plan.cap.Some? ==>
          row.expire == if plan.cap.value < item.expireReading + 900 then plan.cap.value else item.expireReading + 900)
    && (plan.nearDpa ==> row.tx == if row.expire < item.txReading + 240 then row.expire else item.txReading + 240)
    && (!plan.nearDpa ==> row.tx == if row.expire < item.txReading + 60 then row.expire else item.txReading + 60)
  }

  /** What ending the grants of a CBSD makes of one entry. */
  predicate EndedInFields(before: Entry, after: Entry, c: string, now: int) {
    && (before.row.cbsd != c || before.row.terminated || Over(before.row, now) ==> after == before)
    && (before.row.cbsd == c && !before.row.terminated && InForce(before.row, now) ==>
          after == before.(row := before.row.(raw := Some(TERMINATED), terminated := true)))
  }

  /** What relinquishing makes of a grant of the CBSD. */
  predicate RelinquishInFields(pk: int, now: int, before: Grants, after: Grants, code: int)
    requires pk in before
  {
    var row := before[pk].row;
    && (row.terminated || Over(row, now) ==> code == 103 && after == before)
    && (!row.terminated && InForce(row, now) ==>
          code == 0 && after == before[pk := before[pk].(row := row.(raw := Some(RELINQUISHED), terminated := true))])
  }

  /** How many of the first `n` requests were granted. */
  function GrantedCount(codes: seq<int>, n: nat): (count: nat)
    requires n <= |codes|
  {
    if n == 0 then 0 else GrantedCount(codes, n - 1) + if codes[n - 1] == 0 then 1 else 0
  }

  /** Every answer of the batch, from the table it found and the answers before. */
  ghost predicate AnswersInFields(t: Table, items: seq<Item>, codes: seq<int>) {
    && |codes| == |items|
    && forall i :: 0 <= i < |items| ==>
         AnswerIs(codes[i], items[i], t.cbsds,
                  || MeetsGrant(t.grants, items[i].plan.cbsd, items[i].plan.range.low, items[i].plan.range.high)
                  || MeetsEarlier(items, codes, i))
  }

  /** One row for each granted request, in order. */
  ghost predicate NewRows(base: int, items: seq<Item>, codes: seq<int>, grants: Grants) {
    |codes| == |items| && forall i :: 0 <= i < |items| && codes[i] == 0 ==> NewRow(base + GrantedCount(codes, i), items[i], grants)
  }

  predicate NewRow(pk: int, item: Item, grants: Grants) {
    pk in grants && IsNewGrant(grants[pk].row, item)
  }

  /** The table after the batch: the rows there were before, and those of the granted requests. */
  ghost predicate RowsInFields(t: Table, items: seq<Item>, codes: seq<int>, after: Table) {
    NewRows(t.nextPk, items, codes, after.grants) && KeepsRows(t, GrantedCount(codes, |codes|), after)
  }

  /** So many keys more, from the next one on, and all old rows. */
  ghost predicate KeepsRows(t: Table, count: nat, after: Table) {
    && after.cbsds == t.cbsds && after.nextPk == t.nextPk + count
    && (forall pk :: pk in after.grants <==> pk in t.grants || t.nextPk <= pk < after.nextPk)
    && (forall pk :: pk in t.grants ==> pk in after.grants && after.grants[pk] == t.grants[pk])
  }

  class Sas {
    var cbsds: set<string>
    var grants: Grants
    var nextPk: int

    constructor ()
      ensures Valid() && View() == Table({}, map[], 0)
    {
      cbsds, grants, nextPk := {}, map[], 0;
    }

    /** Primary keys are handed out in order and never again. */
    ghost predicate Valid()
      reads this
    {
      0 <= nextPk && forall pk :: pk in grants ==> 0 <= pk < nextPk
    }

    function View(): (t: Table)
      reads this
    {
      Table(cbsds, grants, nextPk)
    }

    method HasConflict(plan: Plan, rows: seq<int>) returns (conflict: bool)
      requires Lists(rows, grants, plan.cbsd, true)
      ensures conflict == Conflicts(grants, plan)
    {
      var existing: seq<Range> := [];
      for i := 0 to |rows|
        invariant |existing| == i
        invariant forall j :: 0 <= j < i ==> existing[j] == Range(grants[rows[j]].row.low, grants[rows[j]].row.high)
      {
        existing := existing + [Range(grants[rows[i]].row.low, grants[rows[i]].row.high)];
      }
      conflict := GrantChannel.HasFreqConflict(existing, plan.range, plan.earlier);
      ExistingConflicts(grants, plan, rows, existing);
    }

    /** The query for the rows of a CBSD, in primary-key order. */
    method RowsOf(c: string, liveOnly: bool) returns (rows: seq<int>)
      requires Valid()
      ensures Lists(rows, grants, c, liveOnly)
    {
      rows := [];
      for pk := 0 to nextPk
        invariant forall i :: 0 <= i < |rows| ==> rows[i] in grants && Listed(grants[rows[i]].row, c, liveOnly)
        invariant forall p :: 0 <= p < pk && p in grants && Listed(grants[p].row, c, liveOnly) ==> p in rows
      {
        if pk in grants && Listed(grants[pk].row, c, liveOnly) {
          rows := rows + [pk];
        }
      }
    }

    /** The locked check-then-insert of one request. */
    method GrantOne(item: Item, pending: Pending) returns (code: int)
      requires Valid()
      modifies this
      ensures Valid()
      ensures code == GrantAnswer(old(View()), item, pending)
      ensures View() == Stepped(Progress(old(View()), pending, []), item).table
      ensures AnswerIs(code, item, old(cbsds),
                       || MeetsGrant(old(grants), item.plan.cbsd, item.plan.range.low, item.plan.range.high)
                       || (item.plan.cbsd in pending && MeetsRange(pending[item.plan.cbsd], item.plan.range.low, item.plan.range.high)))
      ensures cbsds == old(cbsds) && (code != 0 ==> grants == old(grants) && nextPk == old(nextPk))
      ensures code == 0 ==>
                && nextPk == old(nextPk) + 1 && old(nextPk) in grants && IsNewGrant(grants[old(nextPk)].row, item)
                && grants == old(grants)[old(nextPk) := grants[old(nextPk)]]
    {
      AnswerExactly(View(), item, pending);
      var plan := WithPending(item, pending);
      if plan.cbsd !in cbsds {
        return INVALID_PARAM;
      }
      var rows := RowsOf(plan.cbsd, true);
      var conflict := HasConflict(plan, rows);
      if conflict || item.peerHas {
        return GRANT_CONFLICT;
      }
      if item.overloads {
        return INTERFERENCE;
      }
      var expire := GrantExpireTime(item.expireReading, plan.cap);
      grants := grants[nextPk := NewEntry(plan, expire, item.txReading)];
      nextPk := nextPk + 1;
      return SUCCESS;
    }

    method ProcessGrant(items: seq<Item>) returns (codes: seq<int>)
      requires Valid()
      modifies this
      ensures Valid()
      ensures View() == Batch(old(View()), items).table && codes == Batch(old(View()), items).codes
      ensures AnswersInFields(old(View()), items, codes) && RowsInFields(old(View()), items, codes, View())
    {
      codes := [];
      var pending: Pending := map[];
      for i := 0 to |items|
        invariant Valid()
        invariant Progress(View(), pending, codes) == Batch(old(View()), items[..i])
      {
        assert items[..i + 1][..i] == items[..i];
        var code := GrantOne(items[i], pending);
        if code == SUCCESS {
          pending := pending[items[i].plan.cbsd := PendingOf(pending, items[i].plan.cbsd) + [items[i].plan.range]];
        }
        codes := codes + [code];
      }
      assert items[..|items|] == items;
      BatchInFields(old(View()), items);
    }

    method Relinquish(c: string, pk: int, now: int) returns (code: int)
      requires Valid()
      modifies this`grants
      ensures Valid()
      ensures View() == Relinquished(old(View()), c, pk, now).0 && code == Relinquished(old(View()), c, pk, now).1
      ensures c !in cbsds || pk !in old(grants) || old(grants)[pk].row.cbsd != c ==> code == 103 && grants == old(grants)
      ensures c in cbsds && pk in old(grants) && old(grants)[pk].row.cbsd == c ==>
                RelinquishInFields(pk, now, old(grants), grants, code)
    {
      if c !in cbsds || pk !in grants || grants[pk].row.cbsd != c || grants[pk].row.terminated {
        return INVALID_PARAM;
      }
      var grant := new Grant(grants[pk].row);
      var o := grant.ApplyGrantEvent(Lifecycle.Relinquish, IDS, now);
      if !o.ok {
        assert grants[pk := grants[pk].(row := grant.row)] == grants;
        return o.code;
      }
      grants := grants[pk := grants[pk].(row := grant.row)];
      return SUCCESS;
    }

    /** Re-registration ends every grant of the CBSD that is not terminated yet, each at its own clock
        reading. */
    method TerminateGrants(c: string, clock: Clock)
      requires Valid()
      modifies this`grants
      ensures Valid() && grants == AllTerminated(old(grants), c, clock)
      ensures grants.Keys == old(grants).Keys && forall pk :: pk in grants ==> EndedInFields(old(grants)[pk], grants[pk], c, clock(pk))
    {
      var rows := RowsOf(c, false);
      ghost var before := grants;
      for i := 0 to |rows|
        invariant Valid() && grants == SomeTerminated(before, rows[..i], clock)
      {
        var pk := rows[i];
        assert rows[..i + 1] == rows[..i] + [pk];
        TerminatedStep(before, rows[..i], pk, clock);
        if grants[pk].row.terminated {
          continue;
        }
        var grant := new Grant(grants[pk].row);
        var _ := grant.ApplyGrantEvent(Terminate, IDS, clock(pk));
        grants := grants[pk := grants[pk].(row := grant.row)];
      }
      assert rows[..|rows|] == rows;
      AllRowsTerminated(before, c, rows, clock);
    }

    /** The grants are ended, then the registration and, with it, its grant rows are deleted. */
    method Deregister(c: string, clock: Clock) returns (code: int)
      requires Valid()
      modifies this`grants, this`cbsds
      ensures Valid()
      ensures code == if c in old(cbsds) then SUCCESS else INVALID_PARAM
      ensures View() == if c in old(cbsds) then Deregistered(old(View()), c) else old(View())
      ensures c in old(cbsds) ==>
                && cbsds == old(cbsds) - {c}
                && (forall pk :: pk in grants <==> pk in old(grants) && old(grants)[pk].row.cbsd != c)
                && forall pk :: pk in grants ==> grants[pk] == old(grants)[pk]
      ensures c !in old(cbsds) ==> code == 103 && cbsds == old(cbsds) && grants == old(grants)
    {
      if c !in cbsds {
        return INVALID_PARAM;
      }
      ghost var before := View();
      TerminateGrants(c, clock);
      cbsds := cbsds - {c};
      grants := map pk | pk in grants && grants[pk].row.cbsd != c :: grants[pk];
      DeletedRows(before, c, clock, grants);
      return SUCCESS;
    }
  }

  lemma AnswerExactly(t: Table, item: Item, pending: Pending)
    ensures AnswerIs(GrantAnswer(t, item, pending), item, t.cbsds,
                     || MeetsGrant(t.grants, item.plan.cbsd, item.plan.range.low, item.plan.range.high)
                     || MeetsRange(PendingOf(pending, item.plan.cbsd), item.plan.range.low, item.plan.range.high))
  {
    var plan := WithPending(item, pending);
    if MeetsRange(plan.earlier, plan.range.low, plan.range.high) {
      var k :| 0 <= k < |plan.earlier| && plan.earlier[k].low < plan.range.high && plan.range.low < plan.earlier[k].high;
      assert plan.earlier[k] in plan.earlier && Overlaps(plan.earlier[k], plan.range);
    }
  }

  /** The pending lists hold exactly what has been granted, and every new row comes from a request. */
  ghost predicate Traced(t: Table, items: seq<Item>, p: Progress) {
    && |p.codes| == |items|
    && (forall j :: 0 <= j < |items| && p.codes[j] == 0 ==> items[j].plan.range in PendingOf(p.pending, items[j].plan.cbsd))
    && (forall c, k :: 0 <= k < |PendingOf(p.pending, c)| ==> Granted(items, p.codes, c, PendingOf(p.pending, c)[k]))
    && forall pk :: pk in p.table.grants && pk !in t.grants ==>
         var row := p.table.grants[pk].row; Granted(items, p.codes, row.cbsd, Range(row.low, row.high))
  }

  ghost predicate Granted(items: seq<Item>, codes: seq<int>, c: string, r: Range)
    requires |codes| == |items|
  {
    exists j :: 0 <= j < |items| && codes[j] == 0 && items[j].plan.cbsd == c && items[j].plan.range == r
  }

  lemma TracedStep(t: Table, items: seq<Item>, p: Progress, item: Item)
    requires Traced(t, items, p)
    ensures Traced(t, items + [item], Stepped(p, item))
  {
    var q := Stepped(p, item);
    forall c, r | Granted(items, p.codes, c, r) ensures Granted(items + [item], q.codes, c, r) {
      var j :| 0 <= j < |items| && p.codes[j] == 0 && items[j].plan.cbsd == c && items[j].plan.range == r;
      assert (items + [item])[j] == items[j] && q.codes[j] == 0;
    }
    if q.codes[|items|] == 0 {
      assert (items + [item])[|items|] == item;
      assert Granted(items + [item], q.codes, item.plan.cbsd, item.plan.range);
      forall c, k | 0 <= k < |PendingOf(q.pending, c)| ensures Granted(items + [item], q.codes, c, PendingOf(q.pending, c)[k]) {
        if k < |PendingOf(p.pending, c)| {
          assert PendingOf(q.pending, c)[k] == PendingOf(p.pending, c)[k];
        }
      }
    }
  }

  /** What the next request meets in table and pending lists is what it meets in the table as the batch
      found it and among the requests granted before. */
  lemma MetStep(t: Table, items: seq<Item>, p: Progress, item: Item, codes: seq<int>)
    requires Traced(t, items, p) && (forall pk :: pk in t.grants ==> pk in p.table.grants && p.table.grants[pk] == t.grants[pk])
    requires p.codes <= codes
    ensures var low, high := item.plan.range.low, item.plan.range.high;
            (MeetsGrant(p.table.grants, item.plan.cbsd, low, high) || MeetsRange(PendingOf(p.pending, item.plan.cbsd), low, high))
            <==> (MeetsGrant(t.grants, item.plan.cbsd, low, high) || MeetsEarlier(items + [item], codes, |items|))
  {
    var low, high, all := item.plan.range.low, item.plan.range.high, items + [item];
    if MeetsGrant(t.grants, item.plan.cbsd, low, high) {
      var pk :| pk in t.grants && t.grants[pk].row.cbsd == item.plan.cbsd && !t.grants[pk].row.terminated
                && t.grants[pk].row.low < high && low < t.grants[pk].row.high;
      assert pk in p.table.grants;
    }
    if MeetsEarlier(all, codes, |items|) {
      var j :| 0 <= j < |items| && codes[j] == 0 && all[j].plan.cbsd == item.plan.cbsd
               && all[j].plan.range.low < high && low < all[j].plan.range.high;
      assert items[j].plan.range in PendingOf(p.pending, item.plan.cbsd);
    }
    forall r: Range | r.low < high && low < r.high && Granted(items, p.codes, item.plan.cbsd, r)
      ensures MeetsEarlier(all, codes, |items|)
    {
      var j :| 0 <= j < |items| && p.codes[j] == 0 && items[j].plan.cbsd == item.plan.cbsd && items[j].plan.range == r;
      assert codes[j] == 0 && all[j] == items[j];
    }
  }

  lemma AnswersStep(t: Table, items: seq<Item>, codes: seq<int>, item: Item, code: int)
    requires AnswersInFields(t, items, codes)
    requires AnswerIs(code, item, t.cbsds,
                      || MeetsGrant(t.grants, item.plan.cbsd, item.plan.range.low, item.plan.range.high)
                      || MeetsEarlier(items + [item], codes + [code], |items|))
    ensures AnswersInFields(t, items + [item], codes + [code])
  {
    var all, answers := items + [item], codes + [code];
    forall i | 0 <= i < |items| ensures MeetsEarlier(all, answers, i) <==> MeetsEarlier(items, codes, i) {
      assert forall j :: 0 <= j <= i ==> all[j] == items[j] && answers[j] == codes[j];
    }
  }

  lemma {:induction false} CountsStep(codes: seq<int>, code: int, n: nat)
    requires n <= |codes|
    ensures GrantedCount(codes + [code], n) == GrantedCount(codes, n)
  {
    if n > 0 {
      CountsStep(codes, code, n - 1);
    }
  }

  lemma CountsLast(codes: seq<int>, code: int)
    ensures GrantedCount(codes + [code], |codes + [code]|) == GrantedCount(codes, |codes|) + if code == 0 then 1 else 0
  {
    CountsStep(codes, code, |codes|);
  }

  lemma {:induction false} CountsBelow(codes: seq<int>, i: nat, n: nat)
    requires i < n <= |codes| && codes[i] == 0
    ensures GrantedCount(codes, i) < GrantedCount(codes, n)
  {
    if i < n - 1 {
      CountsBelow(codes, i, n - 1);
    }
  }

  lemma OldRowStays(base: int, items: seq<Item>, codes: seq<int>, grants: Grants, more: Grants, i: nat)
    requires NewRows(base, items, codes, grants) && i < |items| && codes[i] == 0
    requires forall pk :: pk in grants && pk < base + GrantedCount(codes, |codes|) ==> pk in more && more[pk] == grants[pk]
    ensures NewRow(base + GrantedCount(codes, i), items[i], more)
  {
    CountsBelow(codes, i, |codes|);
    var pk := base + GrantedCount(codes, i);
    assert NewRow(pk, items[i], grants);
    assert grants[pk] == more[pk];
  }

  lemma NewRowsStep(base: int, items: seq<Item>, codes: seq<int>, grants: Grants, item: Item, code: int, more: Grants)
    requires NewRows(base, items, codes, grants)
    requires forall pk :: pk in grants && pk < base + GrantedCount(codes, |codes|) ==> pk in more && more[pk] == grants[pk]
    requires code == 0 ==> NewRow(base + GrantedCount(codes, |codes|), item, more)
    ensures NewRows(base, items + [item], codes + [code], more)
  {
    forall i | 0 <= i < |items| + 1 && (codes + [code])[i] == 0
      ensures NewRow(base + GrantedCount(codes + [code], i), (items + [item])[i], more)
    {
      NewRowStep(base, items, codes, grants, item, code, more, i);
    }
  }

  lemma NewRowStep(base: int, items: seq<Item>, codes: seq<int>, grants: Grants, item: Item, code: int, more: Grants, i: nat)
    requires NewRows(base, items, codes, grants) && i <= |items| && (codes + [code])[i] == 0
    requires forall pk :: pk in grants && pk < base + GrantedCount(codes, |codes|) ==> pk in more && more[pk] == grants[pk]
    requires code == 0 ==> NewRow(base + GrantedCount(codes, |codes|), item, more)
    ensures NewRow(base + GrantedCount(codes + [code], i), (items + [item])[i], more)
  {
    CountsStep(codes, code, i);
    if i < |items| {
      OldRowStays(base, items, codes, grants, more, i);
    }
  }

  /** A granted request adds its row under the next key. */
  lemma GrantedStep(p: Progress, item: Item)
    requires GrantAnswer(p.table, item, p.pending) == 0
    ensures var t := Stepped(p, item).table;
            && NewRow(p.table.nextPk, item, t.grants) && t.nextPk == p.table.nextPk + 1 && t.cbsds == p.table.cbsds
            && t.grants == p.table.grants[p.table.nextPk := t.grants[p.table.nextPk]]
  {
  }

  lemma RefusedStep(p: Progress, item: Item)
    requires GrantAnswer(p.table, item, p.pending) != 0
    ensures Stepped(p, item).table == p.table
  {
  }

  lemma RefusedRows(t: Table, items: seq<Item>, codes: seq<int>, after: Table, item: Item, code: int)
    requires RowsInFields(t, items, codes, after) && code != 0
    ensures RowsInFields(t, items + [item], codes + [code], after)
  {
    CountsLast(codes, code);
    NewRowsStep(t.nextPk, items, codes, after.grants, item, code, after.grants);
  }

  lemma OneRowMore(t: Table, count: nat, after: Table, more: Table)
    requires KeepsRows(t, count, after) && forall pk :: pk in t.grants ==> pk < t.nextPk
    requires more.nextPk == after.nextPk + 1 && more.cbsds == after.cbsds && after.nextPk in more.grants
    requires more.grants == after.grants[after.nextPk := more.grants[after.nextPk]]
    ensures KeepsRows(t, count + 1, more)
    ensures forall pk :: pk in after.grants && pk < t.nextPk + count ==> pk in more.grants && more.grants[pk] == after.grants[pk]
  {
  }

  lemma GrantedRows(t: Table, items: seq<Item>, codes: seq<int>, after: Table, item: Item, more: Table)
    requires RowsInFields(t, items, codes, after) && forall pk :: pk in t.grants ==> pk < t.nextPk
    requires NewRow(t.nextPk + GrantedCount(codes, |codes|), item, more.grants)
    requires more.nextPk == after.nextPk + 1 && more.cbsds == after.cbsds && after.nextPk in more.grants
    requires more.grants == after.grants[after.nextPk := more.grants[after.nextPk]]
    ensures RowsInFields(t, items + [item], codes + [0], more)
  {
    CountsLast(codes, 0);
    OneRowMore(t, GrantedCount(codes, |codes|), after, more);
    NewRowsStep(t.nextPk, items, codes, after.grants, item, 0, more.grants);
  }

  lemma RowsStep(t: Table, items: seq<Item>, p: Progress, item: Item)
    requires RowsInFields(t, items, p.codes, p.table) && forall pk :: pk in t.grants ==> pk < t.nextPk
    ensures RowsInFields(t, items + [item], Stepped(p, item).codes, Stepped(p, item).table)
  {
    var code := GrantAnswer(p.table, item, p.pending);
    assert Stepped(p, item).codes == p.codes + [code];
    if code == 0 {
      GrantedStep(p, item);
      GrantedRows(t, items, p.codes, p.table, item, Stepped(p, item).table);
    } else {
      RefusedStep(p, item);
      RefusedRows(t, items, p.codes, p.table, item, code);
    }
  }

  /** Every answer of a batch and every row it leaves, said in the fields of requests and rows. */
  lemma {:induction false} BatchInFields(t: Table, items: seq<Item>)
    requires forall pk :: pk in t.grants ==> pk < t.nextPk
    ensures AnswersInFields(t, items, Batch(t, items).codes)
    ensures RowsInFields(t, items, Batch(t, items).codes, Batch(t, items).table)
    ensures Traced(t, items, Batch(t, items))
  {
    if items != [] {
      var front, item := items[..|items| - 1], items[|items| - 1];
      assert items == front + [item];
      BatchInFields(t, front);
      var p := Batch(t, front);
      var code := GrantAnswer(p.table, item, p.pending);
      TracedStep(t, front, p, item);
      RowsStep(t, front, p, item);
      AnswerExactly(p.table, item, p.pending);
      MetStep(t, front, p, item, p.codes + [code]);
      AnswersStep(t, front, p.codes, item, code);
    }
  }

  lemma DeletedRows(t: Table, c: string, clock: Clock, left: Grants)
    requires left == map pk | pk in AllTerminated(t.grants, c, clock) && AllTerminated(t.grants, c, clock)[pk].row.cbsd != c
                       :: AllTerminated(t.grants, c, clock)[pk]
    ensures left == Deregistered(t, c).grants
  {
    forall pk | pk in t.grants ensures AllTerminated(t.grants, c, clock)[pk].row.cbsd == t.grants[pk].row.cbsd {
    }
  }

  /** The rows listed so far are terminated, once each whether listed once or twice. */
  function SomeTerminated(grants: Grants, rows: seq<int>, clock: Clock): (r: Grants)
    ensures r.Keys == grants.Keys
  {
    map pk | pk in grants :: if pk in rows then TerminatedEntry(grants[pk], clock(pk)) else grants[pk]
  }

  lemma TerminatedOnce(e: Entry, now: int)
    ensures TerminatedEntry(TerminatedEntry(e, now), now) == TerminatedEntry(e, now)
  {
  }

  lemma TerminatedStep(grants: Grants, rows: seq<int>, pk: int, clock: Clock)
    requires pk in grants
    ensures SomeTerminated(grants, rows + [pk], clock) ==
            SomeTerminated(grants, rows, clock)[pk := TerminatedEntry(SomeTerminated(grants, rows, clock)[pk], clock(pk))]
  {
    TerminatedOnce(grants[pk], clock(pk));
  }

  lemma AllRowsTerminated(grants: Grants, c: string, rows: seq<int>, clock: Clock)
    requires Lists(rows, grants, c, false)
    ensures SomeTerminated(grants, rows, clock) == AllTerminated(grants, c, clock)
  {
    forall pk | pk in grants ensures pk in rows <==> grants[pk].row.cbsd == c {
    }
  }

  function Deregistered(t: Table, c: string): (r: Table) {
    t.(cbsds := t.cbsds - {c}, grants := map pk | pk in t.grants && t.grants[pk].row.cbsd != c :: t.grants[pk])
  }

  function Relinquished(t: Table, c: string, pk: int, now: int): (r: (Table, int)) {
    if c !in t.cbsds || pk !in t.grants || t.grants[pk].row.cbsd != c || t.grants[pk].row.terminated then (t, INVALID_PARAM)
    else
      var row := t.grants[pk].row;
      var o := Evaluate(Lifecycle.Relinquish, Resolve(row, now), IDS);
      if o.ok then (t.(grants := t.grants[pk := t.grants[pk].(row := WithState(row, RELINQUISHED))]), SUCCESS) else (t, o.code)
  }

  function TerminatedEntry(e: Entry, now: int): (r: Entry) {
    if e.row.terminated then e else e.(row := AfterEvent(e.row, Terminate, IDS, now))
  }

  function AllTerminated(grants: Grants, c: string, clock: Clock): (r: Grants) {
    map pk | pk in grants :: if grants[pk].row.cbsd == c then TerminatedEntry(grants[pk], clock(pk)) else grants[pk]
  }

  // ---------------------------------------------------------------- properties

  ghost predicate TableOk(t: Table) {
    SpectrumApart(t.grants) && forall pk :: pk in t.grants ==> pk < t.nextPk && t.grants[pk].row.cbsd in t.cbsds
  }

  predicate ProperItem(item: Item) {
    item.plan.range.low < item.plan.range.high
  }

  lemma SteppedKeepsTable(p: Progress, item: Item)
    requires TableOk(p.table) && ProperItem(item)
    ensures TableOk(Stepped(p, item).table)
  {
    var plan := WithPending(item, p.pending);
    if GrantAnswer(p.table, item, p.pending) == SUCCESS {
      forall pk | pk in p.table.grants
        ensures RowApart(p.table.grants[pk].row, NewEntry(plan, 0, 0).row)
      {
        assert !Conflicts(p.table.grants, plan);
      }
    }
  }

  /** A batch keeps live grants of one CBSD disjoint, and every row registered. */
  lemma {:induction false} BatchKeepsTable(t: Table, items: seq<Item>)
    requires TableOk(t) && forall i :: 0 <= i < |items| ==> ProperItem(items[i])
    ensures TableOk(Batch(t, items).table) && Batch(t, items).table.cbsds == t.cbsds
  {
    if items != [] {
      BatchKeepsTable(t, items[..|items| - 1]);
      SteppedKeepsTable(Batch(t, items[..|items| - 1]), items[|items| - 1]);
    }
  }

  /** The batch among other sessions: `tables[i]` is the table as request i finds it, whatever happened
      to it since the request before. */
  function Disturbed(tables: seq<Table>, items: seq<Item>): (r: Progress)
    requires |tables| == |items| > 0
    ensures |r.codes| == |items|
  {
    var n := |items| - 1;
    if n == 0 then Stepped(Progress(tables[0], map[], []), items[0])
    else Stepped(Disturbed(tables[..n], items[..n]).(table := tables[n]), items[n])
  }

  /** The tables that the requests find when nobody else interferes. */
  function OwnTables(t: Table, items: seq<Item>): (tables: seq<Table>)
    ensures |tables| == |items|
  {
    if items == [] then [] else OwnTables(t, items[..|items| - 1]) + [Batch(t, items[..|items| - 1]).table]
  }

  lemma {:induction false} BatchIsUndisturbed(t: Table, items: seq<Item>)
    requires items != []
    ensures Batch(t, items) == Disturbed(OwnTables(t, items), items)
  {
    var n := |items| - 1;
    assert OwnTables(t, items)[..n] == OwnTables(t, items[..n]);
    if n == 0 {
      assert items[..0] == [];
      assert Batch(t, items[..0]) == Progress(t, map[], []);
    } else {
      BatchIsUndisturbed(t, items[..n]);
    }
  }

  /** What the batch has granted so far is what its pending lists hold. */
  lemma {:induction false} PendingHoldsGranted(tables: seq<Table>, items: seq<Item>, i: nat)
    requires |tables| == |items| && i < |items| && Disturbed(tables, items).codes[i] == SUCCESS
    ensures items[i].plan.range in PendingOf(Disturbed(tables, items).pending, items[i].plan.cbsd)
  {
    var n := |items| - 1;
    if i < n {
      PendingHoldsGranted(tables[..n], items[..n], i);
    }
  }

  /** Two requests of one batch for one CBSD are never both granted overlapping spectrum, even when other
      sessions end the first of them in between. */
  lemma {:induction false} BatchGrantsApart(tables: seq<Table>, items: seq<Item>, i: nat, j: nat)
    requires |tables| == |items| && i < j < |items|
    requires Disturbed(tables, items).codes[i] == SUCCESS && Disturbed(tables, items).codes[j] == SUCCESS
    requires items[i].plan.cbsd == items[j].plan.cbsd
    ensures !Overlaps(items[i].plan.range, items[j].plan.range)
  {
    var n := |items| - 1;
    if j < n {
      BatchGrantsApart(tables[..n], items[..n], i, j);
    } else {
      PendingHoldsGranted(tables[..n], items[..n], i);
    }
  }

  /** A relinquished grant frees its spectrum and only its own: afterwards a request is in conflict
      exactly when it meets some other live grant or an earlier one of its batch. */
  lemma RelinquishFreesSpectrum(t: Table, c: string, pk: int, now: int, plan: Plan)
    requires Relinquished(t, c, pk, now).1 == SUCCESS
    ensures Conflicts(Relinquished(t, c, pk, now).0.grants, plan) <==> Conflicts(t.grants - {pk}, plan)
  {
    var after := Relinquished(t, c, pk, now).0.grants;
    assert after[pk].row.terminated;
    assert forall p :: p in t.grants && p != pk ==> after[p] == t.grants[p] && (t.grants - {pk})[p] == t.grants[p];
  }

  /** Re-registration: afterwards every grant of the CBSD is dead, those of others are as they were,
      and a row keeps blocking spectrum exactly when the clock had ended it before. */
  lemma TerminatedAllExactly(grants: Grants, c: string, clock: Clock, pk: int)
    requires pk in grants && FlagsAgree(grants[pk].row) && grants[pk].row.raw.Some? && grants[pk].row.raw != Some(REQUESTED)
    ensures grants[pk].row.cbsd != c ==> AllTerminated(grants, c, clock)[pk] == grants[pk]
    ensures grants[pk].row.cbsd == c ==>
              && Dead(AllTerminated(grants, c, clock)[pk].row, clock(pk))
              && (!AllTerminated(grants, c, clock)[pk].row.terminated
                  <==> Live(grants[pk].row.raw.value) && Expired(grants[pk].row, clock(pk)))
  {
    match grants[pk].row.raw.value
    case REQUESTED =>
    case _ =>
  }

  const RANGE: Range := Range(CBRS_LOW_HZ, CBRS_LOW_HZ + CHANNEL_HZ)
  const PLAN: Plan := Plan("g", "c", RANGE, GAA, None, None, 20.0, false, [])
  const ASKED: Item := Item(PLAN, false, false, 900, 900)

  /** A CBSD that registers again when its grant has just run out: the grant is dead, and asking for the
      same channel anew is answered with a conflict. */
  lemma RegisteredAgainStillBlocked()
    ensures var grants := AllTerminated(map[0 := NewEntry(PLAN, 900, 0)], "c", pk => 900);
            && Dead(grants[0].row, 900)
            && GrantAnswer(Table({"c"}, grants, 1), ASKED, map[]) == GRANT_CONFLICT
  {
    var before: Grants := map[0 := NewEntry(PLAN, 900, 0)];
    var clock: Clock := pk => 900;
    var grants := AllTerminated(before, "c", clock);
    TerminatedAllExactly(before, "c", clock, 0);
    assert 0 in grants && grants[0].row.cbsd == "c" && !grants[0].row.terminated;
    assert Overlaps(Range(grants[0].row.low, grants[0].row.high), RANGE);
    assert Conflicts(grants, WithPending(ASKED, map[]));
  }

  // --------------------------- the steps of the interleaved transactions, field by field

  /** What a step makes of the row it works on: relinquishment, ending for a new registration or a
      deregistration, one decision of the daily activities. */
  lemma RowWorkInFields(s: State, tid: nat, pk: int)
    requires tid in s.threads && CanWork(s, tid, pk) && pk in s.threads[tid].local
    ensures var op, row, t' := s.threads[tid].op, s.threads[tid].local[pk].row, Worked(s, tid, pk);
            && pk in t'.local
            && (op.RelinquishOp? ==>
                  && (row.terminated || Over(row, s.now) ==> t'.local[pk].row == row)
                  && (!row.terminated && InForce(row, s.now) ==> t'.local[pk].row == row.(raw := Some(RELINQUISHED), terminated := true)))
            && (op.RegisterOp? ==>
                  && (row.terminated || Over(row, s.now) ==> t'.local[pk].row == row)
                  && (!row.terminated && InForce(row, s.now) ==> t'.local[pk].row == row.(raw := Some(TERMINATED), terminated := true)))
            && (op.DeregisterOp? ==>
                  && (Over(row, s.now) ==> t'.local[pk].row == row)
                  && (InForce(row, s.now) ==> t'.local[pk].row == row.(raw := Some(TERMINATED), terminated := true)))
            && (op.CpasOp? && op.decisions[s.threads[tid].phase.i].pk == Some(pk) ==>
                  exists more :: Decisions.DecidedInFields(row, t'.local[pk].row, op.decisions[s.threads[tid].phase.i], s.now, more))
  {
    var op, row := s.threads[tid].op, s.threads[tid].local[pk].row;
    if op.CpasOp? && op.decisions[s.threads[tid].phase.i].pk == Some(pk) {
      var more := Decisions.DecidedExactly(row, op.decisions[s.threads[tid].phase.i], s.now);
    }
  }

  /** The two clock readings of a grant request, and the row that its commit inserts. */
  lemma GrantWorkInFields(s: State, tid: nat, pk: int)
    requires tid in s.threads && CanWork(s, tid, pk) && s.threads[tid].op.GrantOp?
    ensures var plan, phase, t' := s.threads[tid].op.plan, s.threads[tid].phase, Worked(s, tid, pk);
            && (phase == Started ==>
                  && t'.phase == Checked && plan.cbsd in s.cbsds && !MeetsRange(plan.earlier, plan.range.low, plan.range.high)
                  && !MeetsGrant(s.grants, plan.cbsd, plan.range.low, plan.range.high))
            && (phase == Checked && plan.cap.None? ==> t'.phase == Timed(s.now + 900))
            && (phase == Checked && plan.cap.Some? ==>
                  t'.phase == Timed(if plan.cap.value < s.now + 900 then plan.cap.value else s.now + 900))
            && (phase.Timed? ==>
                  && t'.phase.Inserting? && t'.phase.entry.row.expire == phase.expire && t'.phase.entry.beat == s.now
                  && forall at :: ExpiresAt(plan, at, phase.expire) ==> IsNewGrant(t'.phase.entry.row, Item(plan, false, false, at, s.now)))
  {
    var plan := s.threads[tid].op.plan;
    if s.threads[tid].phase == Started && MeetsRange(plan.earlier, plan.range.low, plan.range.high) {
      var k :| 0 <= k < |plan.earlier| && plan.earlier[k].low < plan.range.high && plan.range.low < plan.earlier[k].high;
      assert plan.earlier[k] in plan.earlier && Overlaps(plan.earlier[k], plan.range);
    }
  }

  predicate ExpiresAt(plan: Plan, at: int, expire: int) {
    expire == if plan.cap.Some? && plan.cap.value < at + 900 then plan.cap.value else at + 900
  }
}
