# Verified model of the SAS core

This project models the part of the Spectrum Access System that decides who may transmit where and
for how long, and proves what its operations keep, one call at a time and over whole runs.

* **Grant table.** Grant, heartbeat with renewal, relinquishment, deregistration, registration and the
  daily activities, as transactions of any number of threads on one database (`Lifecycle`, `Heartbeat`,
  `GrantProtocol`, `GrantTheorems`, `GrantWitness`), the request loops of one session (`GrantOps`), and that
  a transaction nobody disturbs does the same in both (`GrantAlone`).
  A state holds the committed rows and, for each open transaction, the rows it has locked with their
  uncommitted values. Time is in whole seconds; every stage of a request reads the clock for itself.
* **Locks.** The lock order of all entry points, freedom from deadlock, and that conflicting operations
  never overlap (`LockOrder`).
* **Daily activities (CPAS).** Merging and applying decisions (`Decisions`), injected data with its
  generation counters (`Injection`), the pipeline as a protocol of steps against concurrent injectors
  (`CpasPipeline`, `CpasWitness`), the critical section with every exception point on one session
  (`CpasSession`), and that the protocol run alone is that section (`CpasAlone`).
* **Full Activity Dump.** Exporter and publication (`FadExport`), importer (`FadImport`) and the round
  trip between them (`FadRoundTrip`).
* **Spectrum.** Range subtraction and the 10 MHz channelisers (`Spectrum`), the spectrum inquiry
  (`SpectrumInquiry`), the classification of grant requests and its agreement with the inquiry
  (`GrantChannel`).
* **Algorithms.** Convex hull (`Hull`), DPA move list (`MoveList`), circular smoother (`Smoother`),
  per-client token bucket (`RateLimit`).

`dafny verify dfyconfig.toml` checks everything.

Where the code does not do what is expected of it, the model keeps the code as it is and the project
says exactly when the expectation holds:

* A grant past its committed expiry can come back when a heartbeat that renews it had locked the row
  before the expiry and commits after it: `GrantTheorems.RevivalExactly`, with a run in
  `GrantWitness.RevivalHappens`.
* A transmit time can pass the grant's expiry only when a heartbeat fails between renewing a PAL grant
  under a cut licence and recomputing the transmit time: `GrantTheorems.TransmitWithinExpiryExactly`,
  with a run in `GrantWitness.ShorteningInterrupted`.
* Decisions, dump and stamp of a daily run share one transaction, as the code's own comment says,
  exactly when the schedule is off or the clock outside its window; otherwise the stamp follows in a
  later commit: `CpasPipeline.OneCommitExactly`, with a run in `CpasWitness.CrashLosesStamp`.
* The drift check guards the rows of the moment the counters were read, which are the frozen rows
  exactly when those did not change between the two reads of the freeze: `CpasPipeline.DriftCheckIsSound`,
  with a run in `CpasWitness.DriftSlipsThroughFreeze`.
* A published dump passes its integrity check exactly when the public base URL has no path:
  `FadExport.IntegrityExactly`, with an input in `FadExport.PrefixedNeverPublishes`.
* Re-registration leaves a grant that has run out on the clock unmarked, and it goes on blocking its
  spectrum: `GrantOps.TerminatedAllExactly`, with an input in `GrantOps.RegisteredAgainStillBlocked`.
* A range offered for general access is refused as a grant when it lies fully inside a linked PAL
  channel: `GrantChannel.OfferedIsGrantableExactly`.
* The rate limit holds on every window exactly when the clock readings come in lock order, and the code
  reads the clock before it takes the lock: `RateLimit.WindowsBoundedExactly`, with an input in
  `RateLimit.EarlyReadingBreaksWindow`.
* The padded ring of two cluster points can leave both of them out: `Hull.TwoPointRingExactly`.
* Subtraction leaves spectrum twice exactly when the exclusion is given upside down and lies inside a
  segment: `Spectrum.SubtractedApartExactly`, with an inquiry in `SpectrumInquiry.InvertedExclusionDuplicates`.
* After a power reduction the dump shows the power in force exactly when the stored request cannot be read
  or was for just that power; otherwise it goes on showing the requested one:
  `CpasPipeline.ReductionShowsExactly`, with a run in `CpasWitness.CrashLosesStamp`.
* The stamp belongs to the run that made the published dump exactly unless somebody publishes between the
  schedule's commit and the stamp: `CpasPipeline.StampMatchesDumpExactly`, with a run in
  `CpasWitness.StampOfAnOlderRun`.

## Model

| member | source | states |
|---|---|---|
| `Lifecycle.DeadWithTime` | services/lifecycle.py:252-281 | time alone never brings a resolved-terminal grant back nor changes which terminal state it is in |
| `Lifecycle.EventOnDead` | services/lifecycle.py:320-409 | on a dead grant no event changes anything observable later; EXPIRE may only write the expiry down |
| `Lifecycle.EventNeverRevives` | services/lifecycle.py:377-409 | events keep the terminated flag in agreement with the stored state and never clear it |
| `Lifecycle.Grant.ApplyGrantState` | services/lifecycle.py:377-393 | column and both legacy flags after setting a state, flag by flag |
| `Lifecycle.Grant.ApplyGrantEvent` | services/lifecycle.py:396-409 | what each event makes of a grant in force, of one that is over and of one lacking a field: TERMINATED, RELINQUISHED, SUSPENDED, AUTHORIZED or EXPIRED in the row with its own code, or 103 or 102 and the row as it was |
| `Lifecycle.Grant.PersistFederalTermination` | services/heartbeat_service.py:49-74 | the row ends TERMINATED even when it had expired on the clock |
| `Lifecycle.Grant.ApplyRenewal` | services/grant_renewal.py:218-249 | a grant in force gets 900 s, a PAL grant no more than the licence end of its record (column, then inner date, then the stored one), which is then stored; a revoked, missing or past licence, or a grant that is over, changes nothing |
| `Lifecycle.RenewalBounds` | services/grant_renewal.py:164-215 | a renewed grant lives past now, at most one grant period, never past its licence |
| `Lifecycle.RenewalNeverShortens` | services/grant_renewal.py:164-215 | an expiry set earlier is not shortened while the licence end has not moved below it |
| `Lifecycle.TransmitHorizon` | services/dpa_neighborhood.py:316-326 | the horizon is positive and at most 240 s |
| `Lifecycle.TransmitExpireTime` | services/dpa_neighborhood.py:329-347 | the earlier of the grant expiry and 240 s from now near a DPA, 60 s otherwise |
| `Heartbeat.ProcessHeartbeat` | services/heartbeat_service.py:161-414 | every answer in the fields of row and request: a peer grant 500 and TERMINATED, a terminated row 500, relinquished 103, suspended 501, granted but claimed authorized 502 and an active DPA 501, all unchanged, federal 500, expiry, incumbents, measurement errors and renewal in that order; code 0 exactly when none of these applies, and then the new times and AUTHORIZED |
| `Heartbeat.RefusalsPersist` | services/heartbeat_service.py:228-345 | answer 500 leaves the row dead for good, answer 501 leaves it as it was |
| `Heartbeat.SuccessAuthorizesOrIsOver` | services/heartbeat_service.py:367-391 | a success leaves the row AUTHORIZED, or the expiry has passed meanwhile and no transmit time is left |
| `GrantTheorems.TableInvariant` | services/grant_service.py:394-481 | under every interleaving, live grants of one CBSD are pairwise disjoint and in band, every row has a CBSD, flag and state agree, no lock has two holders |
| `GrantTheorems.TimeInvariant` | services/heartbeat_service.py:367-391 | in every reachable state transmit times stay within 240 s of the clock reading behind them, grants within 900 s of now, EXPIRED is written only after the end |
| `GrantTheorems.RegistrationsLeaveNoLiveGrant` | services/deregistration_service.py:51-87 | a completed deregistration leaves no row of the CBSD, a completed registration no live one |
| `GrantTheorems.TransmitWithinExpiryExactly` | services/heartbeat_service.py:351-414 | a step lets a committed transmit time pass its expiry exactly when a heartbeat is interrupted after renewing a PAL grant under a licence end earlier than its committed transmit time |
| `GrantTheorems.DeadStaysDead` | services/lifecycle.py:252-281 | without a live uncommitted copy a dead grant stays dead in every continuation, only EXPIRED may become TERMINATED (or a relinquishment already in flight), and no transmit time passes 240 s after the death |
| `GrantTheorems.RevivalExactly` | services/heartbeat_service.py:202-414 | some continuation revives a dead grant exactly when a live renewed copy of it is in flight |
| `GrantTheorems.LicenceBoundsEveryGrant` | services/grant_renewal.py:164-249 | from any moment a PAL is not in use yet, while its own record is left alone and whatever happens to others: no grant on it outlives the licence, no transmit time its grant, and no renewal shortens it |
| `GrantTheorems.GeneralAccessBounds` | services/grant_renewal.py:164-249 | a general-access grant keeps its transmit time within its expiry and is never shortened, whatever is done to PAL records |
| `GrantTheorems.GeneralAccessNeverFalls` | services/grant_renewal.py:164-249 | over any stretch of any run the committed expiry of a general-access grant never falls |
| `GrantTheorems.LicensedNeverFalls` | services/grant_renewal.py:164-249 | nor does that of a grant on a PAL whose own record is left alone since before it was first used |
| `GrantWitness.RevivalHappens` | services/heartbeat_service.py:351-414 | a reachable state whose committed grant is EXPIRED and which an ordinary commit brings back |
| `GrantWitness.ShorteningInterrupted` | services/heartbeat_service.py:367-414 | a reachable state in which an interrupted heartbeat commits a transmit time past the grant's expiry |
| `GrantOps.Sas.GrantOne` | services/grant_service.py:394-481 | code 0 exactly when the CBSD is registered, no unterminated grant of it and no earlier range of the batch meets the request, no peer holds a grant and nothing is overloaded, each other code with its own condition; on 0 one new row, field by field, else no change |
| `GrantOps.Sas.ProcessGrant` | services/grant_service.py:222-481 | every code of the batch from the table it found and the codes before it, one new row for each 0 in order with that request's fields, all old rows as they were |
| `GrantOps.BatchInFields` | services/grant_service.py:222-481 | the same of the batch as a function of the table, by induction on the requests |
| `GrantOps.Sas.Relinquish` | services/relinquishment_service.py:60-90 | a grant in force becomes RELINQUISHED with its flag set; a foreign, missing, terminated or ended one is answered 103 and nothing changes |
| `GrantOps.Sas.TerminateGrants` | services/registration_service.py:299-310 | every grant of the CBSD in force at its own clock reading becomes TERMINATED, every ended or foreign one stays as it was |
| `GrantOps.Sas.Deregister` | services/deregistration_service.py:51-87 | the registration and exactly the rows of this CBSD are gone, all other rows as they were; an unknown CBSD is answered 103 and nothing changes |
| `GrantOps.BatchKeepsTable` | services/grant_service.py:394-481 | any batch keeps live grants of one CBSD disjoint and every row registered |
| `GrantOps.BatchGrantsApart` | services/grant_service.py:405-468 | two requests of one batch are never both granted overlapping spectrum of one CBSD, whatever other sessions do to the table in between |
| `GrantOps.BatchIsUndisturbed` | services/grant_service.py:222-481 | the batch loop is that batch with no other session interfering |
| `GrantOps.RelinquishFreesSpectrum` | services/relinquishment_service.py:60-90 | a relinquished grant frees its spectrum and only its own |
| `GrantOps.TerminatedAllExactly` | services/registration_service.py:299-310 | after re-registration every grant of the CBSD is dead, and a row still blocks spectrum exactly when the clock had ended it before |
| `GrantOps.RegisteredAgainStillBlocked` | services/registration_service.py:299-310 | a CBSD registering again when its grant has just run out is refused the same channel |
| `GrantOps.RowWorkInFields` | services/relinquishment_service.py:60-90 | what a step of each interleaved transaction makes of the row it works on, in the row's fields |
| `GrantOps.GrantWorkInFields` | services/grant_service.py:394-481 | the two clock readings of an interleaved grant request, its conflict test, and the row its commit inserts |
| `GrantAlone.GrantAlone` | services/grant_service.py:394-481 | undisturbed, the interleaved machine grants to the very table that the session's batch loop computes |
| `GrantAlone.HeartbeatAlone` | services/heartbeat_service.py:161-414 | undisturbed, the machine's stages leave the row that the session's handler leaves, and all else as it was |
| `GrantAlone.RelinquishAlone` | services/relinquishment_service.py:60-90 | undisturbed, the machine relinquishes to the table that the session's method leaves |
| `GrantAlone.CpasAlone` | services/cpas_service.py:752-828 | undisturbed, the machine's daily activities leave the rows that applying the decision list leaves |
| `GrantAlone.RegisterAlone` | services/registration_service.py:299-310 | undisturbed, the machine ends the grants of a registering CBSD as the session's loop does, and registers it |
| `GrantAlone.DeregisterAlone` | services/deregistration_service.py:51-87 | undisturbed, the machine deregisters to the table that the session's method leaves |
| `LockOrder.OperationsAscend` | services/concurrency.py:65-183 | each operation takes its process and advisory locks in strictly rising rank |
| `LockOrder.NeverStuck` | services/concurrency.py:79-183 | in every reachable state with unfinished work some thread can take its next step |
| `LockOrder.AlwaysExclusive` | services/concurrency.py:65-115 | no lock is ever held by two threads, and finished threads hold none, exceptions included |
| `LockOrder.ConflictsNeverOverlap` | services/concurrency.py:65-183 | in every reachable state no two threads are at work on operations that share a CBSD, a grant, the admission baseline or the published dump, within one process or, on the database server, across processes |
| `Decisions.MergeConstraintDecisions` | services/mcp_protection.py:160-190 | one decision per grant in order of first appearance: the last terminate, else the last power reduction, else the first, in terms of positions in the joined list |
| `Decisions.TerminateWins` | services/mcp_protection.py:160-190 | a grant that any source terminates is terminated |
| `Decisions.GrantTable.ApplyCpasDecisions` | services/cpas_service.py:752-828 | every decision takes its effect in turn: terminate or blank leaves a grant of this system in force TERMINATED, suspend SUSPENDED, reduction lowers the limit past the slack, anything else nothing; over rising readings every grant that a decision ends is over at the end, TERMINATED unless the clock was first; the count is that of the changes |
| `Decisions.LeadsToEnds` | services/cpas_service.py:752-828 | a grant that any decision of the list ends is over when the list is done |
| `Decisions.DecidedIsMilder` | services/cpas_service.py:779-825 | a decision never raises a set power limit, never touches identity, spectrum or times, never revives |
| `Decisions.AppliedIsMilder` | services/cpas_service.py:752-828 | the same for a whole list of decisions |
| `Decisions.AppliedElsewhere` | services/cpas_service.py:752-828 | rows no decision names are untouched |
| `Decisions.ApplyTwiceIsOnce` | services/cpas_service.py:752-828 | applying the same decisions again at later times changes no row |
| `Injection.InjectionStore.Upsert` | services/data_injection_service.py:115-133 | the first row of the same natural key gives way to the record; without one, or without a key, the record goes to the end |
| `Injection.InjectionStore.BumpInjectionGeneration` | services/data_injection_service.py:85-91 | one meta row remains, with this counter one higher and the others as they were |
| `Injection.InjectionStore.PersistRecord` | services/data_injection_service.py:296-454 | an acceptable record is stored and counted together, an unacceptable one changes nothing |
| `Injection.InjectionStore.PersistPpaZone` | services/ppa_service.py:589-626 | a created PPA appends its zone row and raises the zone counter together |
| `Injection.InjectionStore.PersistEscSensor` | routes/admin_routes.py:341-351 | sensor record and counter change together |
| `Injection.UpsertReplaces` | services/data_injection_service.py:115-133 | one row per key is kept, it holds what was written last, rows of other keys stay |
| `Injection.UpsertedElsewhere` | services/data_injection_service.py:115-133 | rows of other kinds stay as they were |
| `Injection.WriteRaisesCounter` | services/data_injection_service.py:85-91 | a write raises its own counter by one and no other |
| `CpasPipeline.DecisionsAndDumpTogether` | services/cpas_service.py:859-948 | over every interleaving and crash point: decisions durable exactly when the dump is, the stamp never earlier, all three exactly for completed runs, none for a drift-refused one |
| `CpasPipeline.ChangesOnlyAtCommits` | services/cpas_service.py:880-948 | a run changes grants and published dump only in its deciding commit, the stamp only in its last, with the frozen generation; after drift it changes none |
| `CpasPipeline.DecidingCommitIsExact` | services/cpas_service.py:906-909 | the deciding commit publishes the run's own dump, right about every decided grant and every grant whose listing nobody else has changed since; grants change only among the frozen ones and only towards less |
| `CpasPipeline.DecidingCommitInFields` | services/cpas_service.py:906-909 | the same in fields: a grant is in the dump exactly when not terminated and its CBSD registered, and its record repeats the row, with the requested power where it can be read |
| `CpasPipeline.ListedDifferentlyExactly` | services/cpas_service.py:906-909 | which grants count as changed by others: reported before and not after, the other way round, or with a different record |
| `CpasPipeline.CheckExactly` | services/cpas_service.py:850-903 | the run is refused exactly when a peer generation or a counter differs from the frozen one, and then only the reevaluation mark is set |
| `CpasPipeline.ApplyInFields` | services/cpas_service.py:752-828 | one decision on the table as the run sees it, in the fields of row and decision |
| `CpasPipeline.DriftCheckIsSound` | services/cpas_service.py:850-903 | when the check passes, zone, wisp, esc_zone, cluster_list and sensor rows at the deciding commit are those of the moment the counters were read, and the frozen ones exactly if nothing came between the two reads |
| `CpasPipeline.AdjacentReadsAgree` | services/cpas_service.py:358-412 | an uninterrupted freeze reads rows, peer generations, counters and the grants to decide on at one moment |
| `CpasPipeline.OneCommitExactly` | services/cpas_schedule_service.py:201-228 | the first of the schedule's two commits makes decisions and dump durable ahead of the stamp exactly when the schedule is on and the clock in its window; a crash between or after the two leaves them unstamped |
| `CpasPipeline.StampCommitExactly` | services/cpas_service.py:916-947 | the last commit stamps the frozen generation and carries the decisions exactly when they were not committed before |
| `CpasPipeline.ReductionShowsExactly` | services/fad_service.py:153-180 | after a reduction the dump shows the power in force exactly when no stored request can be read or the request was for just that power |
| `CpasPipeline.DumpAfterDecision` | services/fad_service.py:153-180 | what the dump says of a grant that a decision has not ended is what it said before, but for a reduced power where no request can be read |
| `CpasPipeline.StampMatchesDumpExactly` | services/cpas_service.py:906-947 | when a run writes its stamp, the published dump is its own if the stamp's commit carries it, and if it was committed before, exactly unless another run or an administrator has published since |
| `CpasWitness.DriftSlipsThroughFreeze` | services/cpas_service.py:358-412 | a reachable run that passes the drift check although a zone was injected between the two reads of its freeze |
| `CpasWitness.CrashLosesStamp` | services/cpas_schedule_service.py:201-228 | a reachable run that has crashed with a power reduction and a dump durable and no stamp, the dump showing the grant at its old power |
| `CpasWitness.StampOfAnOlderRun` | services/cpas_schedule_service.py:201-228 | a reachable state with one run's dump published and another run's stamp recorded after it |
| `CpasSession.Session.MarkScheduledSuccess` | services/cpas_schedule_service.py:201-228 | commits what is pending, then its own audit, with a possible failure between the two, or does nothing |
| `CpasSession.Session.CriticalSection` | services/cpas_service.py:859-948 | for every exception point, which of grants, dump, stamp and reevaluation mark are durable; once decided, each decision has taken its effect in turn, the dump reports exactly the unterminated grants of registered CBSDs, and a grant that a decision ended in time is TERMINATED and not in it |
| `CpasSession.Session.ExecutePipeline` | services/cpas_service.py:951-1057 | with the handler's rollback: success makes all three durable, failure none, but for failures after the schedule's own commit |
| `CpasSession.DumpShowsDecidedTable` | services/cpas_service.py:906-909 | the dump lists exactly the non-terminated grants of registered CBSDs after the decisions, each with its requested power; applied again the decisions would change nothing |
| `CpasAlone.PipelineAlone` | services/cpas_service.py:859-948 | undisturbed, the protocol's steps end with the tables of a completed critical section, whether or not the schedule's bookkeeping commits in between |
| `FadExport.ChunkRecords` | services/fad_service.py:281-287 | slicing computes the pages, one empty page for no records |
| `FadExport.PagesPartition` | services/fad_service.py:281-287 | pages concatenate to the records, all but the last full |
| `FadExport.PathsDistinct` | services/fad_service.py:304-306 | different types or pages never share a path |
| `FadExport.DecimalReadsBack` | services/fad_service.py:304-306 | file numbers are written in decimal digits without leading zeros |
| `FadExport.BuildSnapshotPayload` | services/fad_service.py:343-396 | the files of the four types in order, one for each full page and the rest, each with its path, time-stamped content, digest, size and manifest entry; refused above 101 files or on inconsistent stamps |
| `FadExport.VerifyReadyDumpIntegrity` | services/fad_service.py:536-587 | accepts exactly when for every entry the first row with its path has its digest, its size and the dump's time stamps, and all four types are present |
| `FadExport.IntegrityExactly` | services/fad_service.py:399-458 | a payload built here passes exactly when the public base URL has no path |
| `FadExport.SnapshotSucceedsExactly` | services/fad_service.py:343-396 | building a payload fails exactly on more than 101 files |
| `FadExport.PrefixedNeverPublishes` | services/fad_service.py:399-458 | a system under a path of its public host builds its dump, even an empty one, and never publishes it |
| `FadExport.FadStore.PublishSnapshot` | services/fad_service.py:399-458 | succeeds exactly when the files back the manifest; then the old dumps stay unpublished and the new one follows published and ready, else the table is as it was |
| `FadExport.PublishKeepsInvariant` | services/fad_service.py:429-431 | publication keeps at most one published dump, ready and sound, and makes the new one current |
| `FadExport.PublicationInvariant` | services/fad_service.py:399-485 | after any sequence of attempts at most one dump is published, one exactly when some attempt succeeded, and it passes the integrity check |
| `FadImport.ValidateManifest` | services/fad_client_service.py:220-274 | accepts exactly 1 to 101 entries, each of a known type, the expected version, a size within the limit and a digest of 40 hexadecimal digits in either case |
| `FadImport.ValidateActivityEnvelope` | services/fad_client_service.py:277-298 | accepts exactly matching stamps with an id on every record |
| `FadImport.FetchPeerGeneration` | services/fad_client_service.py:317-391 | answers exactly when manifest and every file pass their checks and no key repeats: a triple for each record of each file under that file's type and the record's own id, and no others |
| `FadImport.PeerStore.ApplyPeerGeneration` | services/fad_client_service.py:432-449 | the peer's rows are one for each record in order, with its type, id and text; the rows of others are those there were |
| `FadImport.PeerStore.SyncOnePeer` | services/fad_client_service.py:461-518 | succeeds exactly when there is no address, or the peer is known and its dump can be fetched; then the peer's rows hold the fetched records and no others, and a failure changes nothing |
| `FadImport.PeerStore.RunPeerFadSync` | services/fad_client_service.py:521-564 | each peer ends with the records it published or, failing that, with the rows it had; ok, failed and skipped count the successes, the failures and the peers that brought nothing new |
| `FadImport.AlreadyAppliedExactly` | services/fad_client_service.py:415-429 | the shortcut is taken exactly when the generation is the stored one and rows and records hold the same |
| `FadImport.ReportExactly` | services/fad_client_service.py:521-564 | the counts of a run, from the tables it found and what the peers answered |
| `FadImport.ShortcutIsReplacement` | services/fad_client_service.py:415-429 | when the shortcut is taken, plain replacement would leave the same rows and generation |
| `FadImport.SyncRefinesReplacement` | services/fad_client_service.py:461-518 | success leaves what plain replacement leaves whichever branch runs, failure leaves everything, no record is stored twice |
| `FadImport.RunIsPerPeer` | services/fad_client_service.py:521-564 | each peer's rows after a run depend on its own fetch alone |
| `FadImport.RunKeepsOthers` | services/fad_client_service.py:521-564 | peers not asked keep their rows and generation |
| `FadRoundTrip.FilesHoldTables` | services/fad_service.py:343-396 | the files hold the tables: nothing lost, duplicated, reordered or retyped, for any page size |
| `FadRoundTrip.FetchOfPublished` | services/fad_client_service.py:317-391 | fetching what was just published answers the exported triples exactly when origin and version agree, sizes fit, the server serves the paths and ids are usable and unique; otherwise it fails |
| `FadRoundTrip.ImportStoresExported` | services/fad_client_service.py:432-449 | export then import is the identity: every record of the four exported tables is in exactly one row of the peer, under its own type, id and text, and the peer has no other rows, whatever the importer held before; the rows of other peers stay |
| `FadRoundTrip.FetchIsAllOrNothing` | services/fad_client_service.py:317-391 | whatever files a server hands out, also from a newer dump in the middle of a fetch: with the manifest of a payload and no digest collision the fetch answers the exported triples of that payload or fails |
| `Spectrum.OverlapIsSharedFrequency` | services/spectrum_inquiry_service.py:37-38 | the overlap test means a shared frequency |
| `Spectrum.SubtractRange` | services/spectrum_inquiry_service.py:41-53 | the result consists of exactly the parts of each segment below and above the exclusion, or the whole segment when they do not meet |
| `Spectrum.SubtractedExact` | services/spectrum_inquiry_service.py:41-53 | a frequency is left exactly when it was in and not excluded |
| `Spectrum.SubtractedApart` | services/spectrum_inquiry_service.py:41-53 | disjoint segments stay disjoint for an ordered exclusion |
| `Spectrum.SubtractedApartExactly` | services/spectrum_inquiry_service.py:41-53 | disjoint segments stay disjoint exactly unless the exclusion is upside down and meets one of them |
| `Spectrum.Channelize` | services/dpa_service.py:81-102 | a contiguous cover of the band by channels cut exactly at the grid lines |
| `Spectrum.Split10Mhz` | services/spectrum_inquiry_service.py:56-81 | the same for the part from 3550 to 3700 MHz at 10 MHz steps, so the two channelisers are one |
| `Spectrum.GridCutIsGridCut` | services/dpa_service.py:81-102 | that list is contiguous, covers the range and is cut exactly at grid lines |
| `Spectrum.GridCutUnique` | services/dpa_service.py:81-102 | it is the only such list |
| `Spectrum.GridCutCovers` | services/dpa_service.py:81-102 | a frequency is in some channel exactly when it is in the range |
| `Spectrum.ChannelInDefinition` | services/dpa_service.py:628-653 | the channel is among the stored ones, or without any among those of the band cut at 10 MHz lines |
| `Spectrum.StoredAndRecomputedAgree` | services/dpa_service.py:60-78 | stored and recomputed channels accept the same requests, exactly the channels of the band |
| `SpectrumInquiry.BuildAvailableChannels` | services/spectrum_inquiry_service.py:151-277 | the channels in order: general access on exactly the frequencies open in the fields of the records, cut within the 10 MHz grid, and a PAL channel exactly when an entry of some zone offers it |
| `SpectrumInquiry.GaaExact` | services/spectrum_inquiry_service.py:151-277 | a frequency is offered for general access exactly when inquired, from 3550 to 3700 MHz, outside exclusion zones, the WISPs whose zone holds the CBSD, the satellite band of a near station, and every PAL of a PPA with the CBSD in its cluster or area |
| `SpectrumInquiry.LinksExactly` | services/spectrum_inquiry_service.py:202-241 | the links walked are those of all PAL ids of all PPA zones, each standing for the last record with that id |
| `SpectrumInquiry.GaaOrderFree` | services/spectrum_inquiry_service.py:151-277 | the order of exclusions, incumbents and zones does not matter |
| `SpectrumInquiry.PalExact` | services/spectrum_inquiry_service.py:202-241 | a PAL channel is offered exactly when the user owns it, the CBSD is in its cluster and part of it was still open at its turn |
| `SpectrumInquiry.PalExactInFields` | services/spectrum_inquiry_service.py:202-241 | the same in the fields of zones, PAL records and CBSD, entry by entry |
| `SpectrumInquiry.PalAndGaaApart` | services/spectrum_inquiry_service.py:202-277 | no general-access channel overlaps a PAL channel of the same answer |
| `SpectrumInquiry.GaaChannelsApart` | services/spectrum_inquiry_service.py:243-277 | general-access channels are disjoint for disjoint inquiries and ordered exclusions |
| `SpectrumInquiry.InvertedExclusionDuplicates` | services/exclusion_zone_service.py:185-197 | an exclusion zone stored upside down, read without an order test, makes the inquiry offer one channel twice |
| `SpectrumInquiry.AnswerAscends` | services/spectrum_inquiry_service.py:270-277 | the answer is in order of low, then high frequency |
| `GrantChannel.PpaPalContext` | services/grant_service.py:126-166 | the walk finds the same links as the inquiry, those of all entries of all PPA zones in their order |
| `GrantChannel.ResolveChannel` | services/grant_service.py:169-209 | claimed area without cluster membership 400, a member straddling a border 103, the first own PAL that holds the request with its licence end, a foreign one 400, and general access otherwise, in that order |
| `GrantChannel.HasFreqConflict` | services/grant_service.py:110-123 | true exactly when an existing or pending grant overlaps |
| `GrantChannel.RulingRespectsHolds` | services/grant_service.py:169-209 | a general-access ruling meets no PAL range held for the CBSD, a PAL ruling lies in the user's own PAL with the CBSD in its cluster |
| `GrantChannel.OfferedIsGrantableExactly` | services/grant_service.py:194-207 | an offered range is ruled general access exactly when it is inside no linked PAL channel |
| `GrantChannel.OfferedButRefused` | services/grant_service.py:194-207 | a channel that is offered and then refused |
| `Hull.HalfHull` | services/ppa_service.py:175-184 | one chain turns strictly left at every corner, ends at the extremes and keeps every input on or left of its edges |
| `Hull.ConvexHull` | services/ppa_service.py:146-189 | from three distinct points on, a closed ring of input points with every input on or left of every edge, joined of the two chains; below that the padded rings in coordinates |
| `Hull.TwoPointRingExactly` | services/ppa_service.py:159-168 | the padded ring of two points holds both exactly when their latitudes differ by no more than their longitudes plus twice the pad |
| `Hull.TwoPointRingMisses` | services/ppa_service.py:159-168 | two sites on one meridian that their ring leaves out |
| `MoveList.BuildMovelist` | services/dpa_protection.py:416-438 | the ids of the strongest contributions, equals in their order, as many as it takes until the positive milliwatts of the rest sum up to at most the limit |
| `MoveList.AggregateExactly` | services/dpa_protection.py:403-413 | interference is the plain sum of the positive milliwatts, of one contribution its own or nothing |
| `MoveList.GreedyIsOptimal` | services/dpa_protection.py:416-438 | what is left sums up to at most the limit in milliwatts, no smaller removal achieves that, none of the same size leaves less, nothing is lost or invented |
| `MoveList.EmptyExactlyWhenWithin` | services/dpa_protection.py:403-438 | nothing is moved exactly when the channel was within the limit |
| `MoveList.HigherLimitIsPrefix` | services/dpa_protection.py:416-438 | a higher limit moves a prefix of the list |
| `MoveList.EvaluateProtectedChannel` | services/dpa_protection.py:650-699 | the contributions are those of the grants in the band, in order; within the limit exactly when their positive milliwatts sum up to at most it; the move list as above; every grant in the band when there is no reference point or no path loss |
| `Smoother.HammingFilter` | services/ppa_rf_contour.py:61-80 | each output adds up the weights times the values half a window before it to half a window behind, around the circle; it fails exactly for fewer values than half a window |
| `Smoother.SmoothingConserves` | services/ppa_rf_contour.py:61-80 | with weights that sum to one the output sum is the input sum |
| `Smoother.SmoothingStaysBetween` | services/ppa_rf_contour.py:61-80 | every output lies between the least and the greatest input |
| `Smoother.SmoothingRotates` | services/ppa_rf_contour.py:61-80 | rotating the input rotates the output |
| `RateLimit.RateLimiter.Allow` | services/rate_limit.py:64-82 | the answer and the tokens left in the client's own bucket, in numbers, after an admission and after a refusal; other clients untouched |
| `RateLimit.AdmittedWithinClimb` | services/rate_limit.py:64-82 | any stretch of requests admits at most the burst plus the rate times the forward movement of the clock |
| `RateLimit.AdmittedWithinWindow` | services/rate_limit.py:64-82 | for readings in order, at most burst + rate · elapsed time |
| `RateLimit.EarlyReadingBreaksWindow` | services/rate_limit.py:70-76 | a reading older than its turn refills the same second twice |
| `RateLimit.WindowsBoundedExactly` | services/rate_limit.py:70-82 | the bound holds on every window for every rate, burst and run of answers exactly when no reading is older than the one before it |
| `RateLimit.QuietClientAdmittedExactly` | services/rate_limit.py:64-82 | a client quiet for one refill period is admitted exactly when the burst is at least one |

## Left out

- GrantTheorems.TableInvariant: for databases with row locks; on SQLite, which has none, the daily activities may write a row another session holds.
- GrantTheorems.DeadStaysDead: rows read earlier in a session and still cached by the object mapper are taken to be read afresh when locked.
- GrantTheorems.LicenceBoundsEveryGrant: for a PAL record whose expiration column and inner record agree, as its writer makes them, and whose dates have the form both readers accept; the grant reads only one date form, the renewal several.
- GrantTheorems.RegistrationsLeaveNoLiveGrant: the CBSD's own transition table is not modelled; a refused transition is a commit without changes.
- Heartbeat.ProcessHeartbeat: blacklist, certificate and missing-field answers, which touch no row, and the measurement-report request flag; the answers in fields are for clock readings in order and rows as the system stores them, that is not REQUESTED and EXPIRED only after their end.
- GrantAlone.HeartbeatAlone: with one clock reading throughout, as for the other undisturbed transactions; readings that differ are covered by the stages themselves.
- FadImport.ReportExactly: for a peer list without repetitions and rows without repeated keys, which every synchronisation keeps.
- LockOrder.NeverStuck: process and advisory locks only; waits for database row locks, and two names whose advisory keys collide by hash, are not included.
- CpasPipeline.DriftCheckIsSound: PAL, exclusion-zone, federal FSS and federal GWBL writes and peer record contents are not covered by the counters; a database reset during a run restarts the counters and is not a step of the model; batches of several injections in one transaction are not modelled.
- CpasPipeline.DecidingCommitIsExact: the several selects of the dump builder are one step.
- CpasPipeline.DecisionsAndDumpTogether: the decisions themselves come in as a parameter; propagation, terrain and the interference evaluation are not part of this model.
- FadExport.BuildSnapshotPayload: encoders and the hash are parameters, and so are the record builders' field selection.
- FadImport.FetchPeerGeneration: transport, certificates, redirects and address checks are the parameters `allowed`, `file` and `manifest`.
- FadImport.PeerStore.RunPeerFadSync: the error texts of the report.
- FadRoundTrip.FetchOfPublished: the server's fallback for bare file names, which no listed URL uses.
- MoveList.BuildMovelist: compared in milliwatts with a nonnegative limit; the decibel conversions and the tolerance 1e-12 are not modelled, and numbers are real.
- MoveList.EvaluateProtectedChannel: path loss is a parameter; the refresh of activation rows from its result is not modelled.
- SpectrumInquiry.BuildAvailableChannels: point-in-polygon and distance tests are booleans of the records.
- Smoother.HammingFilter: the cosine that makes the weights; numbers are real.
- Lifecycle.Grant.ApplyRenewal: the protection stamp of the grant.
- Lifecycle.RenewalBounds: fractions of a second, which the source cuts off before comparing.
- HTTP routes, TLS, CPI signatures, quiet-zone, border and measurement checks that refuse a request before any lock: they only narrow which requests reach the model.
- The admission test of a grant against aggregate interference: a refusal there is a commit without changes.
