/** Merging CPAS decisions (services/mcp_protection.py) and applying them to the grant table
    (services/cpas_service.py). */
module Decisions {
  import opened Wrappers
  import opened Lifecycle

  /** `Blank` is a missing action, `Other` one the code does not know. */
  datatype Action = TerminateGrant | ReducePower | SuspendGrant | Blank | Other

  datatype Decision = Decision(pk: Option<int>, grantId: string, action: Action, eirp: Option<real>)

  const EIRP_SLACK: real := 0.000000001

  // ------------------------------------------------------------------ merging

  /** The decisions of one grant, in the order they were raised. */
  function About(ds: seq<Decision>, pk: int): (r: seq<Decision>)
    ensures forall d :: d in r <==> d in ds && d.pk == Some(pk)
  {
    if ds == [] then []
    else
      var n := |ds| - 1;
      assert ds == ds[..n] + [ds[n]];
      About(ds[..n], pk) + if ds[n].pk == Some(pk) then [ds[n]] else []
  }

  function LastWith(ds: seq<Decision>, a: Action): (d: Option<Decision>)
    ensures d.Some? ==> d.value in ds && d.value.action == a
    ensures d.None? ==> forall e :: e in ds ==> e.action != a
  {
    if ds == [] then None
    else if ds[|ds| - 1].action == a then Some(ds[|ds| - 1])
    else
      assert ds == ds[..|ds| - 1] + [ds[|ds| - 1]];
      LastWith(ds[..|ds| - 1], a)
  }

  /** Reference definition of the outcome for one grant: the last terminate, else the last power
      reduction, else the first decision. */
  function Winner(ds: seq<Decision>): (d: Decision)
    requires ds != []
  {
    match LastWith(ds, TerminateGrant)
    case Some(t) => t
    case None =>
      match LastWith(ds, ReducePower)
      case Some(p) => p
      case None => ds[0]
  }

  /** Grants in order of first appearance. */
  function FirstSeen(ds: seq<Decision>): (pks: seq<int>)
    ensures forall pk :: pk in pks <==> exists d :: d in ds && d.pk == Some(pk)
    ensures forall i, j :: 0 <= i < j < |pks| ==> pks[i] != pks[j]
  {
    if ds == [] then []
    else
      var n := |ds| - 1;
      var before := FirstSeen(ds[..n]);
      assert ds == ds[..n] + [ds[n]];
      if ds[n].pk.None? || ds[n].pk.value in before then before else before + [ds[n].pk.value]
  }

  lemma WinnerStep(ds: seq<Decision>, d: Decision)
    requires ds != []
    ensures Winner(ds + [d]) ==
            if d.action == TerminateGrant then d
            else if Winner(ds).action != TerminateGrant && d.action == ReducePower then d
            else Winner(ds)
  {
    assert (ds + [d])[..|ds|] == ds;
  }

  predicate Replaces(existing: Decision, d: Decision) {
    d.action == TerminateGrant || (existing.action != TerminateGrant && d.action == ReducePower)
  }

  /** The dictionary the loop builds. */
  function Tally(ds: seq<Decision>): (byPk: map<int, Decision>) {
    if ds == [] then map[]
    else
      var before := Tally(ds[..|ds| - 1]);
      var d := ds[|ds| - 1];
      if d.pk.None? then before
      else if d.pk.value !in before || Replaces(before[d.pk.value], d) then before[d.pk.value := d]
      else before
  }

  lemma {:induction false} TallyIsWinner(ds: seq<Decision>, pk: int)
    ensures pk in Tally(ds) <==> About(ds, pk) != []
    ensures pk in Tally(ds) ==> Tally(ds)[pk] == Winner(About(ds, pk))
  {
    if ds != [] {
      var n := |ds| - 1;
      TallyIsWinner(ds[..n], pk);
      if ds[n].pk == Some(pk) {
        if About(ds[..n], pk) == [] {
          assert About(ds, pk) == [ds[n]];
        } else {
          WinnerStep(About(ds[..n], pk), ds[n]);
        }
      } else {
        assert About(ds, pk) == About(ds[..n], pk);
      }
    }
  }

  lemma SeenIsTallied(ds: seq<Decision>, pk: int)
    ensures pk in FirstSeen(ds) <==> pk in Tally(ds)
  {
    TallyIsWinner(ds, pk);
    if pk in FirstSeen(ds) {
      var d :| d in ds && d.pk == Some(pk);
      assert d in About(ds, pk);
    }
    if About(ds, pk) != [] {
      assert About(ds, pk)[0] in About(ds, pk);
    }
  }

  lemma TallyStep(ds: seq<Decision>, d: Decision)
    requires d.pk.Some?
    ensures d.pk.value in FirstSeen(ds) <==> d.pk.value in Tally(ds)
    ensures Tally(ds + [d]) == if d.pk.value !in Tally(ds) || Replaces(Tally(ds)[d.pk.value], d) then Tally(ds)[d.pk.value := d] else Tally(ds)
    ensures FirstSeen(ds + [d]) == if d.pk.value in FirstSeen(ds) then FirstSeen(ds) else FirstSeen(ds) + [d.pk.value]
  {
    SeenIsTallied(ds, d.pk.value);
    assert (ds + [d])[..|ds|] == ds;
  }

  lemma SkipStep(ds: seq<Decision>, d: Decision)
    requires d.pk.None?
    ensures Tally(ds + [d]) == Tally(ds) && FirstSeen(ds + [d]) == FirstSeen(ds)
  {
    assert (ds + [d])[..|ds|] == ds;
  }

  method Consider(ghost done: seq<Decision>, byPk0: map<int, Decision>, order0: seq<int>, d: Decision)
    returns (byPk: map<int, Decision>, order: seq<int>)
    requires byPk0 == Tally(done) && order0 == FirstSeen(done)
    ensures byPk == Tally(done + [d]) && order == FirstSeen(done + [d])
  {
    byPk, order := byPk0, order0;
    if d.pk.None? {
      SkipStep(done, d);
      return;
    }
    TallyStep(done, d);
    if d.pk.value !in byPk {
      byPk := byPk[d.pk.value := d];
      order := order + [d.pk.value];
      return;
    }
    if d.action == TerminateGrant {
      byPk := byPk[d.pk.value := d];
    } else if byPk[d.pk.value].action != TerminateGrant && d.action == ReducePower {
      byPk := byPk[d.pk.value := d];
    }
  }

  /** Decision k stands for its grant: the last that terminates it, without one the last that reduces
      its power, without either the first about it. */
  predicate Stands(ds: seq<Decision>, k: nat)
    requires k < |ds|
  {
    var pk := ds[k].pk;
    && pk.Some?
    && (ds[k].action == TerminateGrant ==> forall j :: k < j < |ds| && ds[j].pk == pk ==> ds[j].action != TerminateGrant)
    && (ds[k].action != TerminateGrant ==> forall j :: 0 <= j < |ds| && ds[j].pk == pk ==> ds[j].action != TerminateGrant)
    && (ds[k].action == ReducePower ==> forall j :: k < j < |ds| && ds[j].pk == pk ==> ds[j].action != ReducePower)
    && (ds[k].action !in {TerminateGrant, ReducePower} ==>
          && (forall j :: 0 <= j < |ds| && ds[j].pk == pk ==> ds[j].action != ReducePower)
          && (forall j :: 0 <= j < k ==> ds[j].pk != pk))
  }

  lemma NamedIsTallied(ds: seq<Decision>, i: nat)
    requires i < |ds| && ds[i].pk.Some?
    ensures ds[i].pk.value in Tally(ds)
  {
    TallyIsWinner(ds, ds[i].pk.value);
    assert ds[i] in About(ds, ds[i].pk.value);
  }

  lemma {:induction false} TallyStands(ds: seq<Decision>, pk: int) returns (k: nat)
    requires pk in Tally(ds)
    ensures k < |ds| && ds[k].pk == Some(pk) && ds[k] == Tally(ds)[pk] && Stands(ds, k)
  {
    var front, n := ds[..|ds| - 1], |ds| - 1;
    if ds[n].pk == Some(pk) && (pk !in Tally(front) || Replaces(Tally(front)[pk], ds[n])) {
      k := n;
      if pk in Tally(front) {
        var j := TallyStands(front, pk);
        assert forall i :: 0 <= i < n ==> front[i] == ds[i];
      } else {
        forall i | 0 <= i < n && ds[i].pk.Some? ensures ds[i].pk.value in Tally(front) {
          NamedIsTallied(front, i);
        }
      }
    } else {
      k := TallyStands(front, pk);
      assert forall i :: 0 <= i < n ==> front[i] == ds[i];
    }
  }

  /** Grant `a` is named before grant `b` is. */
  predicate NamedBefore(ds: seq<Decision>, a: Option<int>, b: Option<int>) {
    exists k :: 0 <= k < |ds| && ds[k].pk == a && forall j :: 0 <= j <= k ==> ds[j].pk != b
  }

  lemma {:induction false} SeenInOrder(ds: seq<Decision>, i: nat, j: nat)
    requires i < j < |FirstSeen(ds)|
    ensures NamedBefore(ds, Some(FirstSeen(ds)[i]), Some(FirstSeen(ds)[j]))
  {
    var front, n := ds[..|ds| - 1], |ds| - 1;
    var a, b := FirstSeen(ds)[i], FirstSeen(ds)[j];
    if j < |FirstSeen(front)| {
      SeenInOrder(front, i, j);
      var k :| 0 <= k < |front| && front[k].pk == Some(a) && forall l :: 0 <= l <= k ==> front[l].pk != Some(b);
      assert forall l :: 0 <= l <= k ==> front[l] == ds[l];
    } else {
      assert a in FirstSeen(front) && b !in FirstSeen(front);
      var d :| d in front && d.pk == Some(a);
      var k :| 0 <= k < n && front[k] == d;
      forall l | 0 <= l <= k ensures ds[l].pk != Some(b) {
        assert front[l] in front;
      }
      assert ds[k].pk == Some(a);
    }
  }

  predicate Keeps(ds: seq<Decision>, d: Decision) {
    exists k :: 0 <= k < |ds| && ds[k] == d && Stands(ds, k)
  }

  /** Each grant named has one decision in the merged list, the one that stands for it, in the order
      in which the grants are named. */
  ghost predicate MergedInFields(ds: seq<Decision>, merged: seq<Decision>) {
    && (forall i :: 0 <= i < |merged| ==> Keeps(ds, merged[i]))
    && (forall k :: 0 <= k < |ds| && ds[k].pk.Some? ==> exists i :: 0 <= i < |merged| && merged[i].pk == ds[k].pk)
    && (forall i, j :: 0 <= i < j < |merged| ==> merged[i].pk != merged[j].pk && NamedBefore(ds, merged[i].pk, merged[j].pk))
  }

  lemma OrderIsTallied(ds: seq<Decision>)
    ensures forall i :: 0 <= i < |FirstSeen(ds)| ==>
                          var pk := FirstSeen(ds)[i];
                          pk in Tally(ds) && About(ds, pk) != [] && Tally(ds)[pk] == Winner(About(ds, pk))
  {
    forall i | 0 <= i < |FirstSeen(ds)|
      ensures var pk := FirstSeen(ds)[i]; pk in Tally(ds) && About(ds, pk) != [] && Tally(ds)[pk] == Winner(About(ds, pk))
    {
      SeenIsTallied(ds, FirstSeen(ds)[i]);
      TallyIsWinner(ds, FirstSeen(ds)[i]);
    }
  }

  lemma MergedExactly(ds: seq<Decision>, merged: seq<Decision>)
    requires |merged| == |FirstSeen(ds)|
    requires forall i :: 0 <= i < |merged| ==>
                           About(ds, FirstSeen(ds)[i]) != [] && merged[i] == Winner(About(ds, FirstSeen(ds)[i]))
    ensures MergedInFields(ds, merged)
  {
    var order := FirstSeen(ds);
    forall i | 0 <= i < |merged| ensures Keeps(ds, merged[i]) && merged[i].pk == Some(order[i]) {
      TallyIsWinner(ds, order[i]);
      var k := TallyStands(ds, order[i]);
    }
    forall k | 0 <= k < |ds| && ds[k].pk.Some? ensures exists i :: 0 <= i < |merged| && merged[i].pk == ds[k].pk {
      assert ds[k] in ds && ds[k].pk.value in order;
      var i :| 0 <= i < |order| && order[i] == ds[k].pk.value;
      assert merged[i].pk == ds[k].pk;
    }
    forall i, j | 0 <= i < j < |merged| ensures NamedBefore(ds, merged[i].pk, merged[j].pk) {
      SeenInOrder(ds, i, j);
    }
  }

  /** One decision per grant, in order of first appearance, each the winner among its own. */
  method MergeConstraintDecisions(peer: seq<Decision>, iap: seq<Decision>, dpa: seq<Decision>) returns (merged: seq<Decision>)
    ensures |merged| == |FirstSeen(peer + iap + dpa)|
    ensures forall i :: 0 <= i < |merged| ==>
                          var own := About(peer + iap + dpa, FirstSeen(peer + iap + dpa)[i]);
                          own != [] && merged[i] == Winner(own)
    ensures MergedInFields(peer + iap + dpa, merged)
  {
    var byPk: map<int, Decision>, order: seq<int> := map[], [];
    var groups := peer + iap + dpa;
    for i := 0 to |groups|
      invariant byPk == Tally(groups[..i]) && order == FirstSeen(groups[..i])
    {
      assert groups[..i + 1] == groups[..i] + [groups[i]];
      byPk, order := Consider(groups[..i], byPk, order, groups[i]);
    }
    assert groups[..|groups|] == groups;
    OrderIsTallied(groups);
    merged := InOrder(byPk, order);
    MergedExactly(groups, merged);
  }

  method InOrder(byPk: map<int, Decision>, order: seq<int>) returns (merged: seq<Decision>)
    requires forall i :: 0 <= i < |order| ==> order[i] in byPk
    ensures |merged| == |order| && forall i :: 0 <= i < |order| ==> merged[i] == byPk[order[i]]
  {
    merged := [];
    for i := 0 to |order|
      invariant |merged| == i && forall j :: 0 <= j < i ==> merged[j] == byPk[order[j]]
    {
      merged := merged + [byPk[order[i]]];
    }
  }

  /** A grant that any group wants terminated is terminated by the merged decision. */
  lemma TerminateWins(ds: seq<Decision>, pk: int, d: Decision)
    requires d in ds && d.pk == Some(pk) && d.action == TerminateGrant
    ensures About(ds, pk) != [] && Winner(About(ds, pk)).action == TerminateGrant
  {
    assert d in About(ds, pk);
  }

  // ---------------------------------------------------------------- applying

  predicate PeerGrant(grantId: string) {
    |grantId| >= 5 && grantId[..5] == "peer/"
  }

  const PAYLOAD: set<string> := {"cbsdId", "grantId", "reason", "explanation"}

  /** One decision against its row at the moment the clock reads `now`. */
  function Decided(row: Row, d: Decision, now: int): (r: Row) {
    if row.terminated || PeerGrant(d.grantId) then row
    else match d.action
      case ReducePower =>
        if d.eirp.None? then row
        else if row.maxEirp.Some? && row.maxEirp.value <= d.eirp.value + EIRP_SLACK then row
        else row.(maxEirp := d.eirp)
      case SuspendGrant => AfterEvent(row, Suspend, PAYLOAD, now)
      case TerminateGrant => AfterEvent(row, Terminate, PAYLOAD, now)
      case Blank => AfterEvent(row, Terminate, PAYLOAD, now)
      case Other => row
  }

  type Table = map<int, Row>

  function Applied(rows: Table, ds: seq<Decision>, times: seq<int>): (r: Table)
    requires |times| == |ds|
    ensures r.Keys == rows.Keys
  {
    if ds == [] then rows
    else
      var n := |ds| - 1;
      var before := Applied(rows, ds[..n], times[..n]);
      var d := ds[n];
      if d.pk.Some? && d.pk.value in before then before[d.pk.value := Decided(before[d.pk.value], d, times[n])]
      else before
  }

  /** What one decision makes of its row, and by how much it raises the count of changes. */
  predicate DecidedInFields(before: Row, after: Row, d: Decision, now: int, more: int) {
    var peer := |d.grantId| >= 5 && d.grantId[..5] == "peer/";
    var kept := after == before && more == 0;
    && (before.terminated || peer || d.action == Other ==> kept)
    && (!before.terminated && !peer && d.action in {TerminateGrant, Blank} ==>
          && (InForce(before, now) ==> more == 1 && after == before.(raw := Some(TERMINATED), terminated := true))
          && (Over(before, now) ==> kept))
    && (!before.terminated && !peer && d.action == SuspendGrant ==>
          && (InForce(before, now) ==> more == 1 && after == before.(raw := Some(SUSPENDED), terminated := false))
          && (Over(before, now) ==> kept))
    && (!before.terminated && !peer && d.action == ReducePower ==>
          if d.eirp.None? || (before.maxEirp.Some? && before.maxEirp.value <= d.eirp.value + 0.000000001) then kept
          else more == 1 && after == before.(maxEirp := d.eirp))
  }

  /** ... and of the table, where nothing else changes. */
  predicate StepInFields(before: Table, after: Table, d: Decision, now: int, more: int) {
    if d.pk.None? || d.pk.value !in before then after == before && more == 0
    else d.pk.value in after && after == before[d.pk.value := after[d.pk.value]]
         && DecidedInFields(before[d.pk.value], after[d.pk.value], d, now, more)
  }

  /** `trace` holds the table and the count before each decision and at the end. */
  ghost predicate Trace(trace: seq<(Table, int)>, ds: seq<Decision>, times: seq<int>)
    requires |times| == |ds|
  {
    |trace| == |ds| + 1 && forall i :: 0 <= i < |ds| ==>
      StepInFields(trace[i].0, trace[i + 1].0, ds[i], times[i], trace[i + 1].1 - trace[i].1)
  }

  /** Applying the list leads from `before` to `after` in `changed` changes. */
  ghost predicate Leads(before: Table, after: Table, ds: seq<Decision>, times: seq<int>, changed: int)
    requires |times| == |ds|
  {
    exists trace :: Trace(trace, ds, times) && trace[0] == (before, 0) && trace[|ds|] == (after, changed)
  }

  class GrantTable {
    var rows: Table

    constructor (rows: Table)
      ensures this.rows == rows
    {
      this.rows := rows;
    }

    /** `times[i]` is the clock when decision i is reached.  The lookup by grant id and the lookup by
        primary key of the source both end at the row with the decision's primary key. */
    method ApplyCpasDecisions(ds: seq<Decision>, times: seq<int>) returns (changed: nat)
      requires |times| == |ds|
      modifies this
      ensures rows == Applied(old(rows), ds, times)
      ensures changed == 0 ==> rows == old(rows)
      ensures Leads(old(rows), rows, ds, times, changed)
      ensures Rising(times) ==> AllEnded(old(rows), rows, ds, times)
    {
      changed := ApplyEach(ds, times);
      SoFarAll(old(rows), rows, ds, times, changed);
    }

    method ApplyEach(ds: seq<Decision>, times: seq<int>) returns (changed: nat)
      requires |times| == |ds|
      modifies this
      ensures AppliedSoFar(old(rows), rows, ds, times, |ds|, changed)
    {
      changed := 0;
      SoFarNone(rows, ds, times);
      for i := 0 to |ds|
        invariant AppliedSoFar(old(rows), rows, ds, times, i, changed)
      {
        ghost var before := rows;
        var more := ApplyOne(ds[i], times[i]);
        SoFarStep(old(rows), before, rows, ds, times, i, changed, more);
        changed := changed + more;
      }
    }

    method ApplyOne(d: Decision, now: int) returns (more: nat)
      modifies this
      ensures OneApplied(old(rows), rows, d, now, more)
    {
      if d.pk.None? || d.pk.value !in rows {
        return 0;
      }
      var row := rows[d.pk.value];
      assert rows[d.pk.value := row] == rows;
      if row.terminated || PeerGrant(d.grantId) {
        return 0;
      }
      var action := if d.action == Blank then TerminateGrant else d.action;
      if action == ReducePower {
        if d.eirp.None? || (row.maxEirp.Some? && row.maxEirp.value <= d.eirp.value + EIRP_SLACK) {
          return 0;
        }
        rows := rows[d.pk.value := row.(maxEirp := d.eirp)];
        return 1;
      }
      if action == Other {
        return 0;
      }
      var event := if action == SuspendGrant then Suspend else Terminate;
      var grant := new Grant(row);
      var o := grant.ApplyGrantEvent(event, PAYLOAD, now);
      if !o.ok {
        return 0;
      }
      rows := rows[d.pk.value := grant.row];
      return 1;
    }
  }

  lemma LeadsNowhere(rows: Table)
    ensures Leads(rows, rows, [], [], 0)
  {
    var trace := [(rows, 0)];
    assert Trace(trace, [], []);
  }

  /** After the first n decisions. */
  ghost predicate AppliedSoFar(before: Table, rows: Table, ds: seq<Decision>, times: seq<int>, n: nat, changed: nat)
    requires |times| == |ds| && n <= |ds|
  {
    && rows == Applied(before, ds[..n], times[..n])
    && Leads(before, rows, ds[..n], times[..n], changed)
    && (changed == 0 ==> rows == before)
  }

  /** One decision has been applied. */
  predicate OneApplied(before: Table, after: Table, d: Decision, now: int, more: nat) {
    && after == (if d.pk.Some? && d.pk.value in before then before[d.pk.value := Decided(before[d.pk.value], d, now)] else before)
    && StepInFields(before, after, d, now, more) && (more == 0 ==> after == before)
  }

  lemma SoFarNone(rows: Table, ds: seq<Decision>, times: seq<int>)
    requires |times| == |ds|
    ensures AppliedSoFar(rows, rows, ds, times, 0, 0)
  {
    LeadsNowhere(rows);
    assert ds[..0] == [] && times[..0] == [];
  }

  lemma SoFarStep(before: Table, mid: Table, after: Table, ds: seq<Decision>, times: seq<int>, n: nat, changed: nat, more: nat)
    requires |times| == |ds| && n < |ds| && AppliedSoFar(before, mid, ds, times, n, changed)
    requires OneApplied(mid, after, ds[n], times[n], more)
    ensures AppliedSoFar(before, after, ds, times, n + 1, changed + more)
  {
    LeadsStep(before, mid, after, ds[..n], times[..n], changed, ds[n], times[n], more);
    AppliedStep(before, ds[..n], times[..n], ds[n], times[n]);
    assert ds[..n + 1] == ds[..n] + [ds[n]] && times[..n + 1] == times[..n] + [times[n]];
  }

  lemma SoFarAll(before: Table, rows: Table, ds: seq<Decision>, times: seq<int>, changed: nat)
    requires |times| == |ds| && AppliedSoFar(before, rows, ds, times, |ds|, changed)
    ensures rows == Applied(before, ds, times) && Leads(before, rows, ds, times, changed)
    ensures Rising(times) ==> AllEnded(before, rows, ds, times)
  {
    assert ds[..|ds|] == ds && times[..|times|] == times;
    if Rising(times) {
      LeadsToEnds(before, rows, ds, times, changed);
    }
  }

  lemma LeadsStep(before: Table, mid: Table, after: Table, ds: seq<Decision>, times: seq<int>, changed: int, d: Decision, now: int, more: int)
    requires |times| == |ds| && Leads(before, mid, ds, times, changed) && StepInFields(mid, after, d, now, more)
    ensures Leads(before, after, ds + [d], times + [now], changed + more)
  {
    var trace: seq<(Table, int)> :| Trace(trace, ds, times) && trace[0] == (before, 0) && trace[|ds|] == (mid, changed);
    var longer := trace + [(after, changed + more)];
    forall i | 0 <= i <= |ds|
      ensures StepInFields(longer[i].0, longer[i + 1].0, (ds + [d])[i], (times + [now])[i], longer[i + 1].1 - longer[i].1)
    {
      if i < |ds| {
        assert longer[i] == trace[i] && longer[i + 1] == trace[i + 1];
      }
    }
    assert Trace(longer, ds + [d], times + [now]);
  }

  lemma AppliedStep(rows: Table, ds: seq<Decision>, times: seq<int>, d: Decision, now: int)
    requires |times| == |ds|
    ensures Applied(rows, ds + [d], times + [now]) ==
            var before := Applied(rows, ds, times);
            if d.pk.Some? && d.pk.value in before then before[d.pk.value := Decided(before[d.pk.value], d, now)] else before
  {
    assert (ds + [d])[..|ds|] == ds && (times + [now])[..|ds|] == times;
  }

  /** The decision ends a grant of this system that no event has ended yet. */
  predicate Ends(d: Decision, rows: Table) {
    && d.action in {TerminateGrant, Blank} && d.pk.Some? && d.pk.value in rows
    && !(|d.grantId| >= 5 && d.grantId[..5] == "peer/")
    && Unended(rows[d.pk.value])
  }

  /** ... and has ended it: the row is over at `now`, terminated unless the clock was first. */
  predicate Ended(before: Table, after: Table, pk: int, now: int)
    requires pk in before
  {
    && pk in after && Over(after[pk], now)
    && (now < before[pk].expire ==> after[pk].raw == Some(TERMINATED) && after[pk].terminated)
  }

  /** Every decision that ends a grant of this system has done so. */
  ghost predicate AllEnded(before: Table, after: Table, ds: seq<Decision>, times: seq<int>)
    requires |times| == |ds|
  {
    forall k :: 0 <= k < |ds| && Ends(ds[k], before) ==> Ended(before, after, ds[k].pk.value, times[k])
  }

  predicate Unended(row: Row) {
    !row.terminated && (row.raw in {Some(GRANTED), Some(AUTHORIZED), Some(SUSPENDED)} || row.raw.None?)
  }

  /** What a grant not ended at first looks like later in the list. */
  predicate OnItsWay(before: Row, row: Row) {
    row.expire == before.expire && (Unended(row) || (row.raw == Some(TERMINATED) && row.terminated))
  }

  lemma {:induction false} StaysOnItsWay(trace: seq<(Table, int)>, ds: seq<Decision>, times: seq<int>, pk: int, n: nat)
    requires |times| == |ds| && Trace(trace, ds, times) && n <= |ds|
    requires pk in trace[0].0 && Unended(trace[0].0[pk])
    ensures pk in trace[n].0 && OnItsWay(trace[0].0[pk], trace[n].0[pk])
  {
    if n > 0 {
      StaysOnItsWay(trace, ds, times, pk, n - 1);
      assert StepInFields(trace[n - 1].0, trace[n].0, ds[n - 1], times[n - 1], trace[n].1 - trace[n - 1].1);
    }
  }

  lemma {:induction false} StaysEnded(trace: seq<(Table, int)>, ds: seq<Decision>, times: seq<int>, pk: int, k: nat, n: nat)
    requires |times| == |ds| && Trace(trace, ds, times) && k < n <= |ds| && Rising(times)
    requires pk in trace[0].0 && Unended(trace[0].0[pk]) && ds[k].pk == Some(pk) && Ends(ds[k], trace[0].0)
    ensures Ended(trace[0].0, trace[n].0, pk, times[k])
  {
    StaysOnItsWay(trace, ds, times, pk, n - 1);
    assert StepInFields(trace[n - 1].0, trace[n].0, ds[n - 1], times[n - 1], trace[n].1 - trace[n - 1].1);
    if k < n - 1 {
      StaysEnded(trace, ds, times, pk, k, n - 1);
    }
  }

  /** A grant that a decision ends is over when the list is done. */
  lemma LeadsToEnds(before: Table, after: Table, ds: seq<Decision>, times: seq<int>, changed: int)
    requires |times| == |ds| && Leads(before, after, ds, times, changed) && Rising(times)
    ensures AllEnded(before, after, ds, times)
  {
    var trace: seq<(Table, int)> :| Trace(trace, ds, times) && trace[0] == (before, 0) && trace[|ds|] == (after, changed);
    forall k | 0 <= k < |ds| && Ends(ds[k], before) ensures Ended(before, after, ds[k].pk.value, times[k]) {
      StaysEnded(trace, ds, times, ds[k].pk.value, k, |ds|);
    }
  }

  lemma DecidedExactly(row: Row, d: Decision, now: int) returns (more: nat)
    ensures DecidedInFields(row, Decided(row, d, now), d, now, more)
  {
    more := 0;
    if !row.terminated && !PeerGrant(d.grantId) {
      if d.action == ReducePower {
        more := if d.eirp.None? || (row.maxEirp.Some? && row.maxEirp.value <= d.eirp.value + EIRP_SLACK) then 0 else 1;
      } else if d.action != Other && !Dead(row, now) {
        more := 1;
      }
    }
  }

  lemma AppliedLeadsStep(rows: Table, ds: seq<Decision>, times: seq<int>, d: Decision, now: int, changed: nat) returns (after: nat)
    requires |times| == |ds| && Leads(rows, Applied(rows, ds, times), ds, times, changed)
    ensures Leads(rows, Applied(rows, ds + [d], times + [now]), ds + [d], times + [now], after)
  {
    var before := Applied(rows, ds, times);
    var more: nat := 0;
    if d.pk.Some? && d.pk.value in before {
      more := DecidedExactly(before[d.pk.value], d, now);
    }
    AppliedStep(rows, ds, times, d, now);
    LeadsStep(rows, before, Applied(rows, ds + [d], times + [now]), ds, times, changed, d, now, more);
    after := changed + more;
  }

  /** The same for the list as a function of the table. */
  lemma {:induction false} AppliedLeads(rows: Table, ds: seq<Decision>, times: seq<int>) returns (changed: nat)
    requires |times| == |ds|
    ensures Leads(rows, Applied(rows, ds, times), ds, times, changed)
  {
    if ds == [] {
      LeadsNowhere(rows);
      return 0;
    }
    var n := |ds| - 1;
    changed := AppliedLeads(rows, ds[..n], times[..n]);
    changed := AppliedLeadsStep(rows, ds[..n], times[..n], ds[n], times[n], changed);
    assert ds[..n] + [ds[n]] == ds && times[..n] + [times[n]] == times;
  }

  // ---------------------------------------------------------------- properties

  ghost predicate Rising(times: seq<int>) {
    forall i, j :: 0 <= i < j < |times| ==> times[i] <= times[j]
  }

  /** What a decision may do to a row: identity, spectrum, licence and times are out of its reach, a
      set power limit never goes up, a terminated row is left alone. */
  predicate Softer(before: Row, after: Row) {
    && after == before.(maxEirp := after.maxEirp, raw := after.raw, authorized := after.authorized, terminated := after.terminated)
    && (before.maxEirp.Some? ==> after.maxEirp.Some? && after.maxEirp.value <= before.maxEirp.value)
    && (before.terminated ==> after == before)
  }

  /** ... and a row dead at `now` stays as dead as it was. */
  predicate Milder(before: Row, after: Row, now: int) {
    && Softer(before, after)
    && (after.authorized <==> before.authorized)
    && (Dead(before, now) ==> after.(maxEirp := before.maxEirp) == before)
    && (FlagsAgree(before) ==> FlagsAgree(after))
  }

  lemma DecidedIsMilder(row: Row, d: Decision, now: int)
    ensures Milder(row, Decided(row, d, now), now)
  {
  }

  lemma {:induction false} AppliedIsMilder(rows: Table, ds: seq<Decision>, times: seq<int>, pk: int)
    requires |times| == |ds| && Rising(times) && pk in rows
    ensures forall start :: (forall i :: 0 <= i < |times| ==> start <= times[i]) ==>
                              Milder(rows[pk], Applied(rows, ds, times)[pk], start)
  {
    if ds != [] {
      var n := |ds| - 1;
      AppliedIsMilder(rows, ds[..n], times[..n], pk);
      var mid := Applied(rows, ds[..n], times[..n])[pk];
      forall start | forall i :: 0 <= i < |times| ==> start <= times[i]
        ensures Milder(rows[pk], Applied(rows, ds, times)[pk], start)
      {
        forall i | 0 <= i < n ensures start <= times[..n][i] {
          assert start <= times[i];
        }
        assert Milder(rows[pk], mid, start);
        assert start <= times[n];
        DecidedIsMilder(mid, ds[n], times[n]);
        if Dead(rows[pk], start) {
          DeadWithTime(rows[pk], start, times[n]);
          assert Resolve(mid, times[n]) == Resolve(rows[pk], times[n]);
        }
      }
    }
  }

  /** Rows that no decision names are not touched. */
  lemma {:induction false} AppliedElsewhere(rows: Table, ds: seq<Decision>, times: seq<int>, pk: int)
    requires |times| == |ds| && pk in rows
    requires forall d :: d in ds ==> d.pk != Some(pk)
    ensures Applied(rows, ds, times)[pk] == rows[pk]
  {
    if ds != [] {
      var n := |ds| - 1;
      assert ds[n] in ds;
      AppliedElsewhere(rows, ds[..n], times[..n], pk);
    }
  }

  /** Decision d can do nothing more to this row from time `now` on. */
  ghost predicate Settled(row: Row, d: Decision, now: int) {
    forall t :: now <= t ==> Decided(row, d, t) == row
  }

  lemma SuspendSettles(row: Row, now: int, t: int)
    requires now <= t
    ensures AfterEvent(AfterEvent(row, Suspend, PAYLOAD, now), Suspend, PAYLOAD, t) == AfterEvent(row, Suspend, PAYLOAD, now)
  {
    if Dead(row, now) {
      DeadWithTime(row, now, t);
    }
  }

  lemma TerminateSettles(row: Row, now: int, t: int)
    requires now <= t
    ensures AfterEvent(AfterEvent(row, Terminate, PAYLOAD, now), Terminate, PAYLOAD, t) == AfterEvent(row, Terminate, PAYLOAD, now)
  {
    if Dead(row, now) {
      DeadWithTime(row, now, t);
    }
  }

  lemma SettledAfter(row: Row, d: Decision, now: int)
    ensures Settled(Decided(row, d, now), d, now)
  {
    forall t | now <= t ensures Decided(Decided(row, d, now), d, t) == Decided(row, d, now) {
      SuspendSettles(row, now, t);
      TerminateSettles(row, now, t);
    }
  }

  /** Once a decision has nothing to do, an event changes that only by ending the grant. */
  lemma SettledAcrossEvent(row: Row, d: Decision, event: GrantEvent, now: int, later: int)
    requires now <= later && Settled(row, d, now) && !row.terminated && event in {Suspend, Terminate}
    ensures Settled(AfterEvent(row, event, PAYLOAD, later), d, later)
  {
    if AfterEvent(row, event, PAYLOAD, later) == row {
      SettledLater(row, d, now, later);
    } else if event == Suspend {
      SettledAcrossSuspension(row, d, now, later);
    } else {
      assert AfterEvent(row, event, PAYLOAD, later).terminated;
    }
  }

  lemma SettledAcrossSuspension(row: Row, d: Decision, now: int, later: int)
    requires now <= later && Settled(row, d, now) && !row.terminated && AfterEvent(row, Suspend, PAYLOAD, later) != row
    ensures Settled(AfterEvent(row, Suspend, PAYLOAD, later), d, later)
  {
    var after := AfterEvent(row, Suspend, PAYLOAD, later);
    assert Decided(row, d, later) == row;
    forall t | later <= t ensures Decided(after, d, t) == after {
      SuspendSettles(row, later, t);
    }
  }

  lemma SettledAcrossReduction(row: Row, d: Decision, eirp: real, now: int, later: int)
    requires now <= later && Settled(row, d, now) && !row.terminated
    requires row.maxEirp.Some? ==> eirp <= row.maxEirp.value
    ensures Settled(row.(maxEirp := Some(eirp)), d, later)
  {
    forall t | later <= t ensures Decided(row.(maxEirp := Some(eirp)), d, t) == row.(maxEirp := Some(eirp)) {
      assert Decided(row, d, t) == row;
      match d.action {
        case ReducePower =>
        case SuspendGrant => EventIgnoresPower(row, Suspend, eirp, t);
        case TerminateGrant => EventIgnoresPower(row, Terminate, eirp, t);
        case Blank => EventIgnoresPower(row, Terminate, eirp, t);
        case Other =>
      }
    }
  }

  lemma ResolveIgnoresPower(row: Row, eirp: real, now: int)
    ensures Resolve(row.(maxEirp := Some(eirp)), now) == Resolve(row, now)
  {
  }

  lemma StateIgnoresPower(row: Row, s: GrantState, eirp: real)
    ensures WithState(row.(maxEirp := Some(eirp)), s) == WithState(row, s).(maxEirp := Some(eirp))
  {
  }

  lemma EventIgnoresPower(row: Row, event: GrantEvent, eirp: real, now: int)
    ensures AfterEvent(row.(maxEirp := Some(eirp)), event, PAYLOAD, now) == AfterEvent(row, event, PAYLOAD, now).(maxEirp := Some(eirp))
  {
    ResolveIgnoresPower(row, eirp, now);
    StateIgnoresPower(row, Target(event), eirp);
    assert Evaluate(event, Resolve(row, now), PAYLOAD).ok ==> Evaluate(event, Resolve(row, now), PAYLOAD).to == Some(Target(event));
  }

  lemma SettledStays(row: Row, d: Decision, e: Decision, now: int, later: int)
    requires now <= later && Settled(row, d, now)
    ensures Settled(Decided(row, e, later), d, later)
  {
    if Decided(row, e, later) != row {
      match e.action
      case ReducePower => SettledAcrossReduction(row, d, e.eirp.value, now, later);
      case SuspendGrant => SettledAcrossEvent(row, d, Suspend, now, later);
      case _ => SettledAcrossEvent(row, d, Terminate, now, later);
    }
  }

  lemma AppliedLast(rows: Table, ds: seq<Decision>, times: seq<int>, pk: int)
    requires |times| == |ds| > 0 && pk in rows
    ensures var before := Applied(rows, ds[..|ds| - 1], times[..|ds| - 1]);
            Applied(rows, ds, times)[pk] ==
            if ds[|ds| - 1].pk == Some(pk) then Decided(before[pk], ds[|ds| - 1], times[|ds| - 1]) else before[pk]
  {
  }

  lemma SettledLater(row: Row, d: Decision, now: int, later: int)
    requires now <= later && Settled(row, d, now)
    ensures Settled(row, d, later)
  {
  }

  lemma {:induction false} AppliedSettles(rows: Table, ds: seq<Decision>, times: seq<int>, k: nat)
    requires |times| == |ds| && Rising(times) && k < |ds|
    requires ds[k].pk.Some? && ds[k].pk.value in rows
    ensures Settled(Applied(rows, ds, times)[ds[k].pk.value], ds[k], times[|times| - 1])
  {
    var n := |ds| - 1;
    var pk := ds[k].pk.value;
    var row := Applied(rows, ds[..n], times[..n])[pk];
    AppliedLast(rows, ds, times, pk);
    if k == n {
      SettledAfter(row, ds[n], times[n]);
    } else {
      AppliedSettles(rows, ds[..n], times[..n], k);
      assert times[n - 1] <= times[n];
      if ds[n].pk == Some(pk) {
        SettledStays(row, ds[k], ds[n], times[n - 1], times[n]);
      } else {
        SettledLater(row, ds[k], times[n - 1], times[n]);
      }
    }
  }

  lemma {:induction false} NothingLeft(rows: Table, ds: seq<Decision>, times: seq<int>, since: int)
    requires |times| == |ds|
    requires forall i :: 0 <= i < |times| ==> since <= times[i]
    requires forall d :: d in ds && d.pk.Some? && d.pk.value in rows ==> Settled(rows[d.pk.value], d, since)
    ensures Applied(rows, ds, times) == rows
  {
    if ds != [] {
      var n := |ds| - 1;
      assert ds[n] in ds;
      NothingLeft(rows, ds[..n], times[..n], since);
      var d := ds[n];
      if d.pk.Some? && d.pk.value in rows {
        assert Decided(rows[d.pk.value], d, times[n]) == rows[d.pk.value];
        assert rows[d.pk.value := rows[d.pk.value]] == rows;
      }
    }
  }

  /** Applying the same decisions again, at any later times, changes no grant row. */
  lemma ApplyTwiceIsOnce(rows: Table, ds: seq<Decision>, times: seq<int>, again: seq<int>)
    requires |times| == |ds| == |again| && Rising(times + again)
    ensures Applied(Applied(rows, ds, times), ds, again) == Applied(rows, ds, times)
  {
    if ds != [] {
      var once := Applied(rows, ds, times);
      var all := times + again;
      var since := times[|times| - 1];
      forall i, j | 0 <= i < j < |times| ensures times[i] <= times[j] {
        assert all[i] <= all[j];
      }
      forall i | 0 <= i < |again| ensures since <= again[i] {
        assert all[|times| - 1] <= all[|times| + i];
      }
      forall d | d in ds && d.pk.Some? && d.pk.value in once ensures Settled(once[d.pk.value], d, since) {
        var k :| 0 <= k < |ds| && ds[k] == d;
        AppliedSettles(rows, ds, times, k);
      }
      NothingLeft(once, ds, again, since);
    }
  }
}
