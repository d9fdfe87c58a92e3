/** The critical section and its exception handler as the code runs them, on one database session
    (services/cpas_service.py, services/cpas_schedule_service.py). */
module CpasSession {
  import opened Wrappers
  import opened Lifecycle
  import opened Decisions
  import opened Injection
  import opened CpasPipeline

  /** Where an exception is raised, if anywhere; AtMarkAudit lies between the schedule's two commits. */
  datatype Fault = NoFault | AtApply(i: nat) | AtBuild | AtPublish | AtMark | AtMarkAudit | AtClear | AtRecord | AtAudit

  predicate Early(fault: Fault) { fault.AtApply? || fault == AtBuild || fault == AtPublish }

  /** After the first commit of the schedule's bookkeeping, when there is any. */
  predicate Late(fault: Fault) { fault in {AtMarkAudit, AtClear, AtRecord, AtAudit} }

  /** Nothing but decisions and dump is pending. */
  predicate Pure(tx: Tx) {
    tx.stamp.None? && tx.reeval.None? && tx.lastSuccess.None? && tx.audits == []
  }

  datatype Outcome = Completed | RefusedForDrift | Raised

  /** All decisions on the tables as the transaction sees them. */
  function DecidedTx(db: Db, tx: Tx, ds: seq<Decision>, times: seq<int>): (r: Tx)
    requires |times| == |ds|
  {
    if ds == [] then tx
    else DecisionApplied(db, DecidedTx(db, tx, ds[..|ds| - 1], times[..|ds| - 1]), ds[|ds| - 1], times[|ds| - 1])
  }

  /** The transaction that carries decisions and dump. */
  function DumpTx(db: Db, run: nat, ds: seq<Decision>, times: seq<int>): (r: Tx)
    requires |times| == |ds|
  {
    var tx := DecidedTx(db, EMPTY.(decided := true), ds, times);
    tx.(published := Some(Dump(Some(run), Listing(View(db, tx)))))
  }

  /** Decisions and dump of a run, said in the fields of rows, decisions and records: each decision took
      its effect in turn, the dump is right about every row, and a grant ended by a decision before its
      time ran out is terminated and not in the dump. */
  ghost predicate DecidedAndPublished(before: Db, after: Db, run: nat, ds: seq<Decision>, times: seq<int>)
    requires |times| == |ds|
  {
    && after.published.Some? && after.published.value.run == Some(run)
    && (exists changed: nat :: Leads(before.grants, after.grants, ds, times, changed))
    && (forall pk :: ListedInFields(after.grants, before.cbsds, after.published.value.listing, pk))
    && (Rising(times) ==> forall k :: 0 <= k < |ds| && Ends(ds[k], before.grants) ==>
          var pk := ds[k].pk.value;
          && Ended(before.grants, after.grants, pk, times[k])
          && (times[k] < before.grants[pk].expire ==> pk !in after.published.value.listing))
  }

  /** The tables after a completed run. */
  function CompletedDb(db: Db, run: nat, generation: Fingerprint, ds: seq<Decision>, times: seq<int>, today: int, inWindow: bool): (r: Db)
    requires |times| == |ds|
  {
    var tx := DumpTx(db, run, ds, times);
    var marked := db.scheduleOn && inWindow;
    db.(grants := View(db, tx).grants, published := tx.published, stamp := Some(Stamp(run, generation)), reeval := false,
        lastSuccess := if marked then Some(today) else db.lastSuccess,
        audits := db.audits + (if marked then [ScheduledEndOk(run)] else []) + [PipelineCompleted(run)])
  }

  /** Nothing but grants, dump, stamp, re-evaluation mark and bookkeeping may differ. */
  predicate SameElsewhere(before: Db, after: Db) {
    && after.cbsds == before.cbsds && after.store == before.store && after.peers == before.peers
    && after.scheduleOn == before.scheduleOn
  }

  class Session {
    var db: Db
    var tx: Tx

    constructor (db: Db)
      ensures this.db == db && tx == EMPTY
    {
      this.db := db;
      tx := EMPTY;
    }

    method Commit()
      modifies this
      ensures db == View(old(db), old(tx)) && tx == EMPTY
    {
      db := View(db, tx);
      tx := EMPTY;
    }

    method Rollback()
      modifies this`tx
      ensures tx == EMPTY
    {
      tx := EMPTY;
    }

    method ApplyDecisions(ds: seq<Decision>, times: seq<int>, fault: Fault) returns (raised: bool)
      requires |times| == |ds|
      modifies this`tx
      ensures raised ==> fault.AtApply?
      ensures !raised ==> tx == DecidedTx(db, old(tx), ds, times)
    {
      for i := 0 to |ds|
        invariant tx == DecidedTx(db, old(tx), ds[..i], times[..i])
      {
        if fault == AtApply(i) {
          return true;
        }
        assert ds[..i + 1][..i] == ds[..i] && times[..i + 1][..i] == times[..i];
        tx := DecisionApplied(db, tx, ds[i], times[i]);
      }
      assert ds[..|ds|] == ds && times[..|times|] == times;
      return false;
    }

    method MarkScheduledSuccess(run: nat, today: int, inWindow: bool, fault: Fault) returns (raised: bool)
      modifies this
      ensures !(old(db).scheduleOn && inWindow) ==> !raised && tx == old(tx) && db == old(db)
      ensures old(db).scheduleOn && inWindow ==>
                var marked := View(old(db), old(tx).(lastSuccess := Some(today)));
                && (raised <==> fault == AtMarkAudit) && tx == EMPTY
                && db == if raised then marked else View(marked, EMPTY.(audits := [ScheduledEndOk(run)]))
    {
      if !db.scheduleOn {
        return false;
      }
      if !inWindow {
        return false;
      }
      tx := tx.(lastSuccess := Some(today));
      Commit();
      if fault == AtMarkAudit {
        return true;
      }
      tx := tx.(audits := tx.audits + [ScheduledEndOk(run)]);
      Commit();
      return false;
    }

    method DecideAndPublish(run: nat, ds: seq<Decision>, times: seq<int>, fault: Fault) returns (raised: bool)
      requires |times| == |ds| && tx == EMPTY
      modifies this`tx
      ensures !raised ==> tx == DumpTx(db, run, ds, times)
      ensures raised ==> Early(fault)
      ensures fault == AtBuild || fault == AtPublish ==> raised
    {
      tx := tx.(decided := true);
      raised := ApplyDecisions(ds, times, fault);
      if raised || fault == AtBuild {
        return true;
      }
      var listing := Listing(View(db, tx));
      if fault == AtPublish {
        return true;
      }
      tx := tx.(published := Some(Dump(Some(run), listing)));
      return false;
    }

    /** From the open transaction with decisions and dump to the last commit. */
    method Finalize(run: nat, generation: Fingerprint, today: int, inWindow: bool, fault: Fault) returns (raised: bool)
      requires Pure(tx)
      modifies this
      ensures raised <==> fault in {AtMark, AtClear, AtRecord, AtAudit} || (fault == AtMarkAudit && old(db).scheduleOn && inWindow)
      ensures raised && (fault == AtMark || !(old(db).scheduleOn && inWindow)) ==> db == old(db)
      ensures (!raised || (fault != AtMark && old(db).scheduleOn && inWindow)) ==>
                db.grants == View(old(db), old(tx)).grants && db.published == View(old(db), old(tx)).published
      ensures raised ==> db.stamp == old(db).stamp && db.reeval == old(db).reeval
      ensures !raised ==> tx == EMPTY && db.stamp == Some(Stamp(run, generation)) && !db.reeval
      ensures SameElsewhere(old(db), db)
      ensures !raised && old(db).scheduleOn && inWindow ==>
                db.lastSuccess == Some(today) && db.audits == old(db).audits + [ScheduledEndOk(run), PipelineCompleted(run)]
      ensures !raised && !(old(db).scheduleOn && inWindow) ==>
                db.lastSuccess == old(db).lastSuccess && db.audits == old(db).audits + [PipelineCompleted(run)]
    {
      if fault == AtMark {
        return true;
      }
      ghost var dumped := View(db, tx).grants;
      assert dumped + map[] == dumped;
      raised := MarkScheduledSuccess(run, today, inWindow, fault);
      if raised || fault == AtClear {
        return true;
      }
      tx := tx.(reeval := Some(false));
      if fault == AtRecord {
        return true;
      }
      tx := tx.(stamp := Some(Stamp(run, generation)));
      if fault == AtAudit {
        return true;
      }
      tx := tx.(audits := tx.audits + [PipelineCompleted(run)]);
      Commit();
      return false;
    }

    /** Returns Raised with the transaction as the exception found it. */
    method CriticalSection(run: nat, generation: Fingerprint, ds: seq<Decision>, times: seq<int>, today: int, inWindow: bool, fault: Fault)
      returns (outcome: Outcome)
      requires |times| == |ds| && tx == EMPTY
      modifies this
      ensures outcome == RefusedForDrift <==> FingerprintOf(old(db)) != generation
      ensures outcome == RefusedForDrift <==> old(db).peers != generation.peers || old(db).store.counters != generation.counters
      ensures outcome == RefusedForDrift ==> tx == EMPTY && db == old(db).(reeval := true)
      ensures outcome == Completed ==>
                && db.grants == View(old(db), DumpTx(old(db), run, ds, times)).grants
                && db.published == DumpTx(old(db), run, ds, times).published
                && db.stamp == Some(Stamp(run, generation)) && !db.reeval && tx == EMPTY
                && DecidedAndPublished(old(db), db, run, ds, times)
      ensures SameElsewhere(old(db), db)
      ensures outcome == Completed && old(db).scheduleOn && inWindow ==>
                db.lastSuccess == Some(today) && db.audits == old(db).audits + [ScheduledEndOk(run), PipelineCompleted(run)]
      ensures outcome == Completed && !(old(db).scheduleOn && inWindow) ==>
                db.lastSuccess == old(db).lastSuccess && db.audits == old(db).audits + [PipelineCompleted(run)]
      ensures outcome == Completed ==> db == CompletedDb(old(db), run, generation, ds, times, today, inWindow)
      ensures outcome == Raised ==> fault != NoFault && db.stamp == old(db).stamp && db.reeval == old(db).reeval
      ensures outcome == Raised && !(old(db).scheduleOn && inWindow && Late(fault)) ==> db == old(db)
      ensures outcome == Raised && old(db).scheduleOn && inWindow && Late(fault) ==>
                && db.grants == View(old(db), DumpTx(old(db), run, ds, times)).grants
                && db.published == DumpTx(old(db), run, ds, times).published
                && DecidedAndPublished(old(db), db, run, ds, times)
    {
      if FingerprintOf(db) != generation {
        tx := tx.(reeval := Some(true));
        assert db.grants + map[] == db.grants;
        Commit();
        return RefusedForDrift;
      }
      var raised := DecideAndPublish(run, ds, times, fault);
      if raised {
        return Raised;
      }
      TxReach(db, EMPTY.(decided := true), ds, times);
      DumpInFields(db, run, ds, times);
      raised := Finalize(run, generation, today, inWindow, fault);
      return if raised then Raised else Completed;
    }

    /** The pipeline after the freeze: what the critical section does, then the handler's rollback and
        failure audit.  Without the schedule's own commits the three writes are all or nothing. */
    method ExecutePipeline(run: nat, generation: Fingerprint, ds: seq<Decision>, times: seq<int>, today: int, inWindow: bool, fault: Fault)
      returns (ok: bool)
      requires |times| == |ds| && tx == EMPTY
      modifies this
      ensures tx == EMPTY
      ensures ok ==> FingerprintOf(old(db)) == generation
      ensures ok ==> old(db).peers == generation.peers && old(db).store.counters == generation.counters
      ensures FingerprintOf(old(db)) == generation && fault == NoFault ==> ok
      ensures ok ==>
                && db.grants == View(old(db), DumpTx(old(db), run, ds, times)).grants
                && db.published == DumpTx(old(db), run, ds, times).published && db.stamp == Some(Stamp(run, generation))
                && DecidedAndPublished(old(db), db, run, ds, times)
      ensures SameElsewhere(old(db), db)
      ensures ok && old(db).scheduleOn && inWindow ==>
                db.lastSuccess == Some(today) && db.audits == old(db).audits + [ScheduledEndOk(run), PipelineCompleted(run)]
      ensures ok && !(old(db).scheduleOn && inWindow) ==>
                db.lastSuccess == old(db).lastSuccess && db.audits == old(db).audits + [PipelineCompleted(run)]
      ensures !ok ==> db.stamp == old(db).stamp && db.audits != [] && db.audits[|db.audits| - 1] == PipelineFailed(run)
      ensures !ok && !(old(db).scheduleOn && inWindow && FingerprintOf(old(db)) == generation && Late(fault)) ==>
                db.grants == old(db).grants && db.published == old(db).published
      ensures !ok && old(db).scheduleOn && inWindow && FingerprintOf(old(db)) == generation && Late(fault) ==>
                && db.grants == View(old(db), DumpTx(old(db), run, ds, times)).grants
                && db.published == DumpTx(old(db), run, ds, times).published
                && DecidedAndPublished(old(db), db, run, ds, times)
    {
      var outcome := CriticalSection(run, generation, ds, times, today, inWindow, fault);
      if outcome == Completed {
        return true;
      }
      Rollback();
      tx := tx.(audits := tx.audits + [PipelineFailed(run)]);
      assert db.grants + map[] == db.grants;
      Commit();
      return false;
    }
  }

  /** Applying decisions writes grant rows and nothing else. */
  lemma {:induction false} TxReach(db: Db, tx: Tx, ds: seq<Decision>, times: seq<int>)
    requires |times| == |ds|
    ensures DecidedTx(db, tx, ds, times) == tx.(grants := DecidedTx(db, tx, ds, times).grants)
  {
    if ds != [] {
      TxReach(db, tx, ds[..|ds| - 1], times[..|ds| - 1]);
    }
  }

  /** The transaction's view of the grants is the table with all decisions applied. */
  lemma {:induction false} DecidedTxIsApplied(db: Db, tx: Tx, ds: seq<Decision>, times: seq<int>)
    requires |times| == |ds|
    ensures View(db, DecidedTx(db, tx, ds, times)).grants == Applied(View(db, tx).grants, ds, times)
  {
    if ds != [] {
      var n := |ds| - 1;
      DecidedTxIsApplied(db, tx, ds[..n], times[..n]);
      var before := DecidedTx(db, tx, ds[..n], times[..n]);
      var d := ds[n];
      if d.pk.Some? && d.pk.value in View(db, before).grants {
        var row := Decided(View(db, before).grants[d.pk.value], d, times[n]);
        assert db.grants + before.grants[d.pk.value := row] == (db.grants + before.grants)[d.pk.value := row];
      }
    }
  }

  /** After a completed run the dump lists exactly the grants not terminated of registered CBSDs in
      the table with the decisions applied, and applying the decisions again would change nothing. */
  lemma DumpShowsDecidedTable(db: Db, run: nat, ds: seq<Decision>, times: seq<int>, again: seq<int>)
    requires |times| == |ds| == |again| && Rising(times + again)
    ensures var after := db.(grants := Applied(db.grants, ds, times));
            && View(db, DumpTx(db, run, ds, times)).grants == after.grants
            && DumpTx(db, run, ds, times).published == Some(Dump(Some(run), Listing(after)))
            && Applied(after.grants, ds, again) == after.grants
  {
    var tx := EMPTY.(decided := true);
    assert db.grants + map[] == db.grants;
    DecidedTxIsApplied(db, tx, ds, times);
    ApplyTwiceIsOnce(db.grants, ds, times, again);
    assert Listing(View(db, DecidedTx(db, tx, ds, times))) == Listing(db.(grants := Applied(db.grants, ds, times)));
  }

  lemma DumpInFields(db: Db, run: nat, ds: seq<Decision>, times: seq<int>)
    requires |times| == |ds|
    ensures DecidedAndPublished(db, View(db, DumpTx(db, run, ds, times)), run, ds, times)
  {
    var tx := EMPTY.(decided := true);
    assert db.grants + map[] == db.grants;
    DecidedTxIsApplied(db, tx, ds, times);
    var seen := View(db, DecidedTx(db, tx, ds, times));
    var changed := AppliedLeads(db.grants, ds, times);
    if Rising(times) {
      LeadsToEnds(db.grants, seen.grants, ds, times, changed);
    }
    TxReach(db, tx, ds, times);
    forall pk ensures ListedInFields(seen.grants, db.cbsds, Listing(seen), pk) {
      ListingExactly(seen, Listing(seen), pk);
    }
  }
}
