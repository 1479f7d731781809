# Turma hub: a verified model of the high-availability core

This project models the parts of the Turma hub and its agent that decide who may write, what is
stored, and what survives a crash, and proves what they keep over every run:

- one leader at a time over a shared Kubernetes Lease (`Elector`, `LeaseElection`, `LeaseExact`,
  `LeaseProgress`, `LeaseTraces`);
- an append-only archive fed by byte ranges: exactly-once ingest, recovery after a restart or a
  hydrate, whole histories of replicas taking over from one another's copies, the byte ceiling, file ownership
  (`Ingest`, `ExactlyOnce`, `Recovery`, `Generations`, `IngestWindows`, `Ceiling`, `Ownership`);
- the archive's copies: the bucket mirror (`Mirror`, `MirrorTerm`, `MirrorProgress`, `MirrorObject`), the duplicate repair
  (`Repair`, `RepairText`),
  the Postgres rows (`IndexStore`) and their convergence under stale replicas (`Convergence`);
- incremental projection of a native log into a transcript (`Projection`, `ProjectionTail`);
- the delta tail to the browser (`DeltaTail`) and forwarding to the leader (`Forwarding`, `ForwardingWait`);
- two self-contained algorithms: Kahn layering with plan validation (`Layering`, `EpicPlan`) and the
  ustar writer against a reader for the "ustar Interchange Format" of the `pax` utility in POSIX.1-2017
  (`Tar`).

Protocols are transition systems: a state, a `Step` datatype, `Enabled`, `Apply`, and theorems over every
legal sequence of steps. Objects whose fields the program updates in place are classes whose methods are
proved against functions on values; those functions are what the transition systems use. Clocks, network
answers, file contents, `canLead`, hash functions and JSON are parameters or fields of the steps.

`dafny verify dfyconfig.toml` checks everything.

## Assumptions

- Lease: one shared clock; the API server serves requests atomically; `canLead` returns only when no positive
  answer is on its way that would make the replica lead while the Lease no longer bears it out or an abstain is
  about to take it back (`Orderly`, exact by `LeaseExact.ReturnExactly`); closed electors do not count as leaders
  (what they still report is `LeaseExact.ReportExactly`); a process restarted under its identity keeps its lease
  duration.
- Ingest: one transcript; file appends are atomic; the source is append-only, its entries have distinct
  keys (where they do not: `ExactlyOnce.SuspectChunkExactly`), its record offsets grow, and, where a duplicate is derived, it is within the hub's transcript limit.
  The runs of `IngestIsExactlyOnce` keep the index across restarts, as the sqlite mode does; those of `Generations`
  also take over from copies. There the shed budget stays the same and a takeover finds a file: a missing one is
  left to the mirror's gate. The duplicate repair is modelled on its own.
- Mirror: one leader term, starting with ingest gated, nothing dirty or being pushed, each local file a prefix
  or an extension of its object, pending raw keys short of theirs, only rendered keys blocked; downloads may be
  in flight (`TermStart`). Gated hydrates do not overlap, and only the leader pushes during its term.
- Projection: `mk`, the deterministic uuid, is injective; writes that are reported as done are done; a log
  rewritten since the last look is shorter than the cursor or unchanged before it (`Honest`), which is all a size
  can tell a tail.
- Convergence: appended lines are new, and the ordinal an append starts at is the number of first-copy entries
  in the leader's file, repaired or not. That ordinal is the only right one (`Convergence.OrdinalExactly`); ingest
  gives it in every history of files without repeats (`ExactlyOnce.RunKeepsCount`, `Generations.CountsFollowTheFile`),
  and after a reconcile of a damaged file exactly when `Recovery.ReconciledOrdinalExactly` says.
- Delta tail: window ids are distinct; one id and one serialised length mean one content; a grow-only
  viewer is never shown a lighter version than the one it holds.
- Ceiling: files change only by the steps of the model; a write is charged in the same turn it is made.
- Forwarding: replica ids survive a comma-separated header; proofs verify (the freshness window and the
  replay cache are one flag).

## Findings

Properties that are false of the code, each with a concrete run and the condition under which it holds:

- A renew answered after an abstain, once `canLead` is back, makes two leaders
  (`LeaseTraces.LateRenewBreaksExclusion`; exactly when: `LeaseExact.ReturnExactly`).
- `release()` leaves the flag up while its Lease is already backdated
  (`LeaseTraces.ReleasingReplicaStillReportsLeadership`; exactly when another can lead beside it:
  `LeaseExact.ReportExactly`).
- A re-send from a suspect cursor drops an entry past the file whose key recurs from before the cursor, though a
  comment (`turma/archive.js`, lines 1600-1601) counts on repeated keys being matched once each
  (`IngestWindows.RecurringKeyIsLost`; exactly when: `ExactlyOnce.SuspectChunkExactly`).
- A crash between the row and the sidecar of a suspect chunk that stored nothing loses the
  `cursorUnverified` flag, and the next chunk duplicates (`IngestWindows.CrashBeforeSidecarDuplicates`;
  exactly when: `ExactlyOnce.CrashAfterRowExactly`).
- Ingest clears a reconcile's in-memory suspicion before the append; if the append throws, the retry
  duplicates (`IngestWindows.FailedAppendAfterReconcileDuplicates`; exactly when:
  `ExactlyOnce.FailedAppendExactly`).
- A row written by a suspect chunk that stored nothing can reach Postgres before its flagged sidecar reaches the
  bucket; a replica that hydrates both reconciles unsuspected and duplicates
  (`IngestWindows.RowBeforeSidecarDuplicates`; exactly when: `Recovery.WrittenRowExactly`,
  `Recovery.ReconcileExactly`; over every history: `Generations.GuardsAreExact`).
- A reconcile counts the lines of a damaged file, repeats included, so the next entries are stored past their
  ordinals (`Recovery.RepeatedLineMiscounts`; exactly when: `Recovery.ReconciledOrdinalExactly`, `Convergence.OrdinalExactly`).
- A raw download in flight across a term start that has read something stale lands, reopens its key, and a push
  drops bytes (`MirrorTerm.StaleRawFetchLosesBytes`; exactly when: `MirrorTerm.TermIsSafeExactly`).
- A log rewritten and regrown to the cursor or past it goes unnoticed and mixes two logs in one transcript
  (`ProjectionTail.RegrownLogDiverges`; exactly when: `ProjectionTail.RewriteExactly`).
- A copy torn inside a line does not always repair to a prefix, and repair does not always commute with
  later appends on it (exactly when: `Repair.TornPrefixForever`, `Repair.CommutesExactly`).
- The ceiling under-counts after a failed first walk, a walk that skips unreadable but writable
  directories, and a download (`Ceiling.FailedFirstWalkAccepts`, `Ceiling.SkippedDirectoriesAccept`,
  `Ceiling.DownloadIsUncharged`). Store and quotas hold over every clean run exactly when the count covers the
  disk (`Ceiling.CeilingExactly`), which a walk (`Ceiling.WalkCoversExactly`), a step (`Ceiling.StepCoversExactly`)
  and a boot (`Ceiling.BootCoversExactly`) leave exactly when what they miss is empty
  or fits the count.
- An edit that keeps an entry's serialised length is never sent, and the chat page keeps a heavier old copy
  (`DeltaTail.SameLengthEditIsLost`, `DeltaTail.ShrunkEntryIsKept`; exactly when:
  `DeltaTail.FrameLandsExactly`).
- A tar member split at a leading slash loses it, and a size of 8^11 or more has no terminator
  (`Tar.LeadingSlashIsLost`; exactly when: `Tar.RoundTrip`).
- `route()` has no bound of its own: leaders at ever new dead addresses keep it dialling past its deadline
  (`Forwarding.EverNewLeadersNeverEnd`; exactly when: `Forwarding.WaitGoesOnExactly`). With hop proofs that
  do not verify there is no bound on forwards (`Forwarding.IgnoredProofsForwardForever`).
- A comment in `turma/archive.js` (lines 3292-3294) promises prefix-monotone repair for any shorter copy; the
  code keeps it for line-aligned ones, and the code is what is modelled.

## Model

| member | source | states |
|---|---|---|
| Elector.LeaseSeconds | turma/leader.js:146-154 | the advertised whole seconds never fall short of the configured duration, and are at least one |
| Elector.BackdateIsExpired | turma/leader.js:420-441 | a Lease backdated by an abstain or release reads as expired to every standby at once |
| Elector.LeaderElector.SetLeader | turma/leader.js:221-255 | the stamp never moves back, a lapsed, closed or barred replica is never re-armed, and edges are emitted as the specification function says |
| Elector.LeaderElector.MaybeExpire | turma/leader.js:407-412 | a replica past its renew deadline steps down with an edge |
| Elector.LeaderElector.Tick | turma/leader.js:345-402 | after the read: which write is issued, conditional on which version, stamped with the time before it |
| Elector.LeaderElector.Answered | turma/leader.js:379-402 | what an answered create, renew, acquire, abstain or release does to the replica |
| LeaseElection.MutualExclusion | turma/leader.js:345-439 | in every run of overlapping ticks, late answers, conflicts, failures, abstains and releases in which `canLead` returns on no dangerous answer, at most one open replica leads |
| LeaseElection.InvRun | turma/leader.js:345-439 | the inductive invariant holds in every reachable state |
| LeaseElection.InvStep | turma/leader.js:257-266 | every step of the system keeps the invariant |
| LeaseElection.InvExcludes | turma/leader.js:160-170 | the invariant leaves room for one leader only |
| LeaseElection.LandingKeepsReplica | turma/leader.js:323-343 | a write that lands takes the Lease only from replicas whose own window has run out |
| LeaseElection.ReplySurvives | turma/leader.js:323-343 | an answer still on its way keeps its guarantee when another write lands |
| LeaseElection.InvRaise | turma/leader.js:221-255 | a re-armed stamp is one the Lease still carries |
| LeaseElection.InvDeliverGet | turma/leader.js:345-402 | continuing a tick from its read keeps the invariant |
| LeaseElection.InvFail | turma/leader.js:345-356 | a request that throws, even one that lands later, keeps the invariant |
| LeaseElection.InvReboot | turma/leader.js:107-144 | a process restarted under the same identity, its old writes still landing, keeps the invariant |
| LeaseExact.ReturnExactly | turma/leader.js:221-255 | when `canLead` returns, at most one replica leads over everything that follows, if and only if no answer on its way would re-arm the replica while the Lease does not bear it out or an abstain is about to take it back |
| LeaseExact.DangerBreaks | turma/leader.js:345-439 | from every other reachable state some run makes two lead |
| LeaseExact.TakenOver | turma/leader.js:323-343 | beside a replica that reports a leadership the Lease does not bear out, the Lease's holder or a new replica comes to lead in one tick |
| LeaseExact.ReportExactly | turma/leader.js:444-468 | a replica that reports leadership, releasing or not, stays the only one while it stands still, if and only if the Lease carries its stamp |
| LeaseExact.ReportersCoincide | turma/leader.js:160-170 | in every orderly run at most one replica reports leadership at one instant, provided each closed one that does has the Lease at its stamp |
| LeaseProgress.LoneTickExactly | turma/leader.js:345-402 | an open replica that may lead and ticks alone leads if and only if there was no Lease, it was its own or it had run out; the Lease then says so, and is otherwise left alone |
| LeaseProgress.FirstBootLeads | turma/leader.js:379-382 | the first replica of a fleet creates the Lease and leads after one tick |
| LeaseProgress.LoneAbstainExactly | turma/leader.js:357-369 | a leader that may no longer lead steps down in one tick and frees the Lease for every standby, if it holds it |
| LeaseProgress.LoneReleaseExactly | turma/leader.js:444-468 | a release closes the replica, ends its leadership and frees the Lease, if it holds it |
| LeaseProgress.HandOver | turma/leader.js:413-468 | in every reachable state a leader that abstains or releases is followed within the same instant by the next replica that ticks |
| LeaseProgress.FailedReadExactly | turma/leader.js:345-356 | a tick whose read fails leaves a leader leading if and only if its renew deadline has not passed |
| LeaseProgress.RefusedWriteExactly | turma/leader.js:388-412 | so does a refused renew; a refused acquire or create ends leadership at once |
| LeaseProgress.FailedReleaseEnds | turma/leader.js:444-468 | a release that fails anywhere still ends leadership |
| LeaseTraces.LateRenewBreaksExclusion | turma/leader.js:221-255 | a run of the code in which two replicas lead at one instant |
| LeaseTraces.ReleasingReplicaStillReportsLeadership | turma/leader.js:444-468 | a run in which a releasing replica still reports leadership while its successor leads |
| LeaseTraces.PromotionsAlternate | turma/leader.js:207-255 | emitted leadership values strictly alternate from true in every run |
| LeaseTraces.PromotionEdgeNeverMissed | turma/leader.js:221-255 | between an instant of non-leadership, silent expiry included, and a later one of leadership a promotion was emitted |
| Ingest.RenderedEntries | turma/archive.js:1640-1657 | payload shedding aside, what is stored is the list |
| Ingest.Archived.Dedup | turma/archive.js:1600-1608 | exactly the entries the file does not hold yet, one held copy consumed per match |
| Ingest.FreshIsTheRest | turma/archive.js:1600-1608 | for every list and file the kept keys are, as a multiset, the list's less the held ones |
| Ingest.FreshDropsFirstHeld | turma/archive.js:1600-1608 | what is kept is the list, in order, without the first held-many entries of each key |
| Ingest.Archived.Render | turma/archive.js:1640-1657 | the stored lines and their size, payloads shed from the entry that starts past the budget |
| Ingest.RenderedSheds | turma/archive.js:1634-1657 | an entry keeps its payloads if and only if what is stored before it has not used up the budget |
| Ingest.Archived.Guard | turma/archive.js:1574-1622 | the suspect-cursor guard: which entries are stored and which figures they continue from |
| Ingest.Archived.IngestChunk | turma/archive.js:1474-1735 | the whole new state of a chunk, refused or stored, and the cursor handed back |
| Ingest.Archived.ReconcileHydratedCursor | turma/archive.js:3055-3106 | the row and the suspicion after a reconcile |
| ExactlyOnce.IngestIsExactlyOnce | turma/archive.js:1474-1735 | over every run of duplicated, stale, reordered, refused and crashed chunks the file is a prefix of the rendered source, nothing twice, covering the cursor, and exactly the cursor's range unless suspect |
| ExactlyOnce.RunKeepsInv | turma/archive.js:1474-1735 | the invariant holds over every run and the cursor never moves back |
| ExactlyOnce.StepKeepsInv | turma/archive.js:1474-1735 | each step of a run keeps it |
| ExactlyOnce.RunKeepsCount | turma/archive.js:1626-1682 | over every run a row of its file's size counts the file's lines, and the next entries follow them |
| ExactlyOnce.ChunkKeepsInv | turma/archive.js:1539-1735 | a completed chunk keeps it and never shortens file or cursor |
| ExactlyOnce.CrashAfterAppendKeepsInv | turma/archive.js:1658-1682 | a crash between the append and the row is recovered from disk alone |
| ExactlyOnce.SafeExactly | turma/archive.js:1574-1622 | no faithful chunk duplicates if and only if the cursor is suspect or at the end of its file |
| ExactlyOnce.BehindDuplicates | turma/archive.js:1591-1666 | a cursor behind its file that nothing convicts stores the rest of the source again |
| ExactlyOnce.CrashAfterRowExactly | turma/archive.js:1667-1718 | after a crash between the row and the sidecar no faithful chunk duplicates, if and only if the stated condition on the chunk holds |
| ExactlyOnce.FailedAppendExactly | turma/archive.js:1615-1660 | after an append that throws no faithful chunk duplicates, if and only if the stated condition holds |
| ExactlyOnce.FreshIsTheTail | turma/archive.js:1600-1608 | re-sent entries of a source with distinct keys are kept exactly past what is held |
| ExactlyOnce.ResendKeepsExactly | turma/archive.js:1596-1608 | on a source that may repeat keys a re-send keeps exactly what is new if and only if no new entry has the key of one before the cursor |
| ExactlyOnce.SuspectChunkExactly | turma/archive.js:1590-1666 | a suspect chunk over the end of the file leaves exactly the source so far under the same condition, and otherwise loses an entry |
| ExactlyOnce.AppendExtends | turma/archive.js:1574-1666 | after the append the file is the longer of what it was and what the chunk reaches |
| Recovery.ReconcileLeavesNoGap | turma/archive.js:3045-3112 | the reconciled cursor never passes the file, and one that may be behind is suspect |
| Recovery.CoveredCursorIsBehind | turma/archive.js:3075-3083 | the lower of the pairs recorded beside a shorter file never passes it |
| Recovery.RebuildLeavesNoGap | turma/archive.js:3256-3275 | a rebuilt row never passes its file, and one that may be behind is suspect |
| Recovery.RebuildIsExact | turma/archive.js:3256-3275 | re-sends after a rebuild that reach the end of the source leave exactly the rendered source |
| Recovery.ResendKeepsInv | turma/archive.js:1574-1735 | in-order re-sends after a reconcile keep the invariant |
| Recovery.RecoveryIsExact | turma/archive.js:3045-3120 | re-sends that reach the end of the source leave exactly the rendered source |
| Generations.CopiesAreHydrated | turma/archive.js:3045-3074 | any file, row and sidecar ever written, over every run of ingests, crashes, restarts, takeovers and rebuilds, make a state the reconcile is specified for |
| Generations.RunKeeps | turma/archive.js:1667-1718 | every row and sidecar recorded in any generation names a cursor not ahead of the file it recorded, a sidecar exactly unless flagged, and a row counts that file's lines |
| Generations.GenerationsAreExact | turma/archive.js:3045-3120 | over every such run the file is a beginning of the rendered source with no entry twice, all of it once the cursor is at its end, and any two files ever written are one a beginning of the other |
| Generations.GuardsAreExact | turma/archive.js:1602-1718 | in every history a restart, an append that throws and a takeover leave no faithful chunk to fear if and only if they meet their guard |
| Generations.AppendIsCanon | turma/archive.js:1626-1666 | however a chunk is cut and whatever of it is held, shed payloads included, the file continues one rendering of the source |
| Generations.CountsFollowTheFile | turma/archive.js:1626-1682 | the next entries are stored under the ordinals that follow the file's own lines |
| Generations.ShedExactly | turma/archive.js:1634-1657 | in every file ever written a line keeps its payloads if and only if the lines before it have not used up the budget |
| Recovery.HandoverResumes | turma/archive.js:3066-3084 | from the copies of a completed chunk a reconcile, and a rebuild, go on at its cursor and suspect it exactly as before |
| Recovery.CoveredIsLowest | turma/archive.js:3075-3083 | from copies of different moments the cursor is the lowest of those recorded beside a shorter file, 0 without one |
| Recovery.RebuiltOrdinal | turma/archive.js:3256-3275 | a rebuilt row numbers the next entry past the file's first copies |
| Recovery.RepeatedLineMiscounts | turma/archive.js:3089-3099 | a line stored twice is counted twice by a reconcile that suspects nothing |
| Recovery.ReconciledOrdinalExactly | turma/archive.js:3089-3099 | a reconcile that counts lines anew gives the ordinal of a repaired file if and only if the cursor is suspect or no line is repeated |
| Recovery.WrittenRowExactly | turma/archive.js:1626-1682 | a row just written is exact for its file if and only if its chunk was not a suspect one that stored nothing and stopped short |
| Recovery.ReconcileExactly | turma/archive.js:3066-3084 | after a reconcile no faithful chunk duplicates, if and only if the row was exact wherever it was what the reconcile believed |
| IngestWindows.CrashBeforeSidecarDuplicates | turma/archive.js:1697-1718 | a concrete run that stores an entry twice |
| IngestWindows.FailedAppendAfterReconcileDuplicates | turma/archive.js:1602-1666 | a concrete run that stores an entry twice |
| IngestWindows.RowBeforeSidecarDuplicates | turma/archive.js:3066-3084 | a row hydrated before its flagged sidecar reconciles unsuspected and the next chunk stores an entry twice |
| IngestWindows.RecurringKeyIsLost | turma/archive.js:1590-1624 | a run after which the cursor is at the end of the source and an entry is missing |
| Mirror.BucketNeverLosesBytes | turma/archive-mirror.js:240-272 | in one term every push extends the object there, and every key written is in the bucket in full unless dirty or being pushed |
| Mirror.IngestStartsCovered | turma/archive-mirror.js:505-512 | every append starts on a file that covers its object |
| MirrorTerm.NoLateDownload | turma/archive-mirror.js:788-801 | over every run from any term start, stale downloads in flight included, a download lands only on a gated, blocked or pending key |
| Mirror.LandingIsClosed | turma/archive-mirror.js:388-472 | the same from the invariant, for hydrates, retries and raw fetches |
| Mirror.InvRun | turma/archive-mirror.js:284-607 | the invariant holds in every reachable state of a term |
| Mirror.InvStep | turma/archive-mirror.js:176-607 | every step keeps it |
| Mirror.KeepClassify | turma/archive-mirror.js:314-388 | the synchronous classify keeps it: what it opens is covered |
| Mirror.KeepHydrateSettle | turma/archive-mirror.js:388-440 | a settled, failed or timed-out download keeps it |
| Mirror.KeepRetrySettle | turma/archive-mirror.js:537-607 | opening retried keys after the reconcile keeps it |
| Mirror.KeepRawResult | turma/archive-mirror.js:754-786 | a raw fetch's end keeps it |
| Mirror.KeepPushEnd | turma/archive-mirror.js:252-272 | a push that succeeds, or fails after its PUT landed, keeps it |
| Mirror.KeepIngest | turma/archive-mirror.js:176-179 | an append and its note keep the invariant: the key is dirty, in the local file, and covers its object |
| Mirror.KeepPushStart | turma/archive-mirror.js:252-272 | taking a key for a push, never a blocked one, keeps the invariant |
| MirrorObject.ArchiveMirror.Classify | turma/archive-mirror.js:314-388 | pending, blocked and the downloads are exactly those of the specification, each once |
| MirrorProgress.ClassifyClosesExactly | turma/archive-mirror.js:343-386 | after a classify a key is closed if and only if it is listed and its local file absent or shorter, so a blocked key found whole or unlisted is open |
| MirrorProgress.SettleBlocksExactly | turma/archive-mirror.js:400-424 | a hydrate download leaves its key blocked if and only if it was late or threw |
| MirrorProgress.HydrateCompletes | turma/archive-mirror.js:314-440 | a hydrate whose listing and downloads succeed ends with ingest open, every short rendered file its object, no other file changed and only short raw keys closed |
| MirrorProgress.RetryOpens | turma/archive-mirror.js:537-607 | a retry that lands, or finds the object gone, unblocks its key |
| MirrorProgress.RawFetchOpens | turma/archive-mirror.js:754-786 | so does an on-demand fetch of a pending raw key |
| MirrorProgress.PushCatchesUp | turma/archive-mirror.js:252-272 | a push that succeeds leaves the object equal to the file and the key clean |
| MirrorProgress.FailedPushStaysDirty | turma/archive-mirror.js:252-272 | one that fails leaves the key dirty |
| MirrorTerm.StaleRawFetchLosesBytes | turma/archive-mirror.js:754-786 | from any term start with a stale raw download of an object the local file falls short of, some run of the term pushes an object that drops bytes |
| MirrorTerm.TermIsSafeExactly | turma/archive-mirror.js:754-786 | no run of a term loses bytes if and only if no such download is carried into it |
| Repair.BlankTailStart | turma/archive.js:3321-3337 | the line up to its trailing blanks, as whole UTF-8 characters |
| RepairText.BlankWidthExactly | turma/archive.js:3321-3337 | after any bytes the scan takes the UTF-8 form of a character if and only if String#trim drops it |
| RepairText.LineKeyIsTrimmed | turma/archive.js:3353-3358 | the key of a line of text is the text with its end trimmed |
| RepairText.VoidIsAllBlank | turma/archive.js:3358-3359 | a key counts as blank if and only if its Latin-1 reading trims to nothing |
| Repair.DedupLines | turma/archive.js:3344-3366 | the scan returns the first copies, the number dropped, and the very buffer when none is |
| Repair.FirstHasSameKeys | turma/archive.js:3344-3366 | first copies hold every nonblank key and no other |
| Repair.FirstIsUnique | turma/archive.js:3344-3366 | no nonblank key is held twice |
| Repair.DedupIdempotent | turma/archive.js:3344-3366 | repairing twice changes nothing more |
| Repair.DedupPrefix | turma/archive.js:3290-3294 | a line-aligned older copy repairs to a prefix |
| Repair.DedupAbsorbs | turma/archive.js:3344-3366 | repair, append, repair equals repairing the whole |
| Repair.LinesOfDedup | turma/archive.js:3344-3366 | the repaired file splits into exactly the first copies |
| Repair.TornPrefixExactly | turma/archive.js:3355-3359 | the same for the file that ends with the completed line |
| Repair.TornPrefixForever | turma/archive.js:3355-3359 | a torn copy repairs to a prefix of everything the file grows into, if and only if the piece is not new while its line is a copy |
| Repair.TornBlanksArePrefix | turma/archive.js:3355-3358 | a tear before trailing blanks keeps the prefix |
| Repair.CommutesExactly | turma/archive.js:3364-3365 | on a torn file repair commutes with every append if and only if the torn piece was kept |
| IndexStore.BuildEntryInsert | turma/index-store.js:167-187 | six parameters a row, at consecutive ordinals |
| IndexStore.StatementInserts | turma/index-store.js:167-187 | running that statement inserts exactly those rows and touches no other transcript |
| IndexStore.InsertsJoin | turma/index-store.js:480-488 | two batches at consecutive ordinals are one insert |
| IndexStore.InsertedIs | turma/index-store.js:167-187 | an insert adds exactly its ordinals and changes a present row only if it overwrites |
| IndexStore.PgIndexStore.InsertBatch | turma/index-store.js:480-488 | at most a thousand rows become one statement of at most 6000 parameters that inserts exactly them |
| IndexStore.PgIndexStore.InsertEntriesBatched | turma/index-store.js:480-488 | wherever it stops or fails, a prefix of the list is in as one insert would put it |
| IndexStore.PgIndexStore.AppendEntries | turma/index-store.js:372-376 | present ordinals are left as they are |
| IndexStore.PgIndexStore.SeatEntries | turma/index-store.js:465-469 | the first ordinals are overwritten, nothing is trimmed |
| IndexStore.PgIndexStore.ReplaceEntries | turma/index-store.js:446-455 | done means exactly the new list; stopped or failed means no ordinal missing, or the new list |
| IndexStore.NeverBelowAnyWrite | turma/index-store.js:143-163 | a high-water column never falls below any write, whatever the order |
| IndexStore.NeverLowered | turma/index-store.js:143-163 | nor below the row it started from |
| IndexStore.HighWaterWasWritten | turma/index-store.js:143-163 | and is always a value someone wrote; the rest is the last write's |
| Convergence.IndexConverges | turma/archive.js:536-571 | over every interleaving and duplication of appends and seats each row is the true one for its ordinal, and once all are delivered the index is exactly the first-copy entries |
| Convergence.RunKeepsRows | turma/index-store.js:372-376 | no row present is ever lost or changed |
| Convergence.StaleSeatChangesNothing | turma/index-store.js:457-469 | a seat from any stale, unrepaired copy changes no row present |
| Convergence.SeatHeals | turma/index-store.js:457-469 | a seat from a copy of everything appended, once delivered, puts every true row right whatever was missing or wrong |
| Convergence.CopyReadsPrefix | turma/archive.js:857-879 | any copy, read by first copies, is a beginning of the truth |
| Convergence.RunKeepsInv | turma/archive.js:536-571 | the invariant holds in every reachable state |
| Convergence.OrdinalExactly | turma/archive.js:1667-1682 | an append of new entries leaves only true rows if and only if it starts at the number of first-copy entries in the leader's file |
| Ceiling.StoreMeter.TotalArchiveBytes | turma/archive.js:1182-1216 | cached while young, measured when old, and a failed measurement keeps baseline and charge |
| Ceiling.StoreMeter.CeilingRefuses | turma/archive.js:1277-1306 | refused exactly when the store or the caller's tenant counts full after the read |
| Ceiling.AcceptedExactly | turma/archive.js:1182-1306 | a write is accepted if and only if the disk is below the limits when the count is over five minutes old, or half a minute once full, and the count is otherwise |
| Ceiling.FailedWalkBacksOff | turma/archive.js:1190-1204 | a failed walk keeps the count and is not tried again until the count is old once more |
| Ceiling.GrowKeepsInv | turma/archive.js:1659-1666 | a write charged as it is made leaves nothing uncounted, for the store and for each tenant |
| Ceiling.WalkBytes | turma/archive.js:1056-1126 | the walk's total and per-tenant totals are the sums over what it reads |
| Ceiling.CeilingExactly | turma/archive.js:1277-1306 | for the store and for each tenant: over every limit and every clean run every accepted write starts below the limit, if and only if the count starts out covering the disk |
| Ceiling.StepCoversExactly | turma/archive.js:1182-1216 | a count that covers the disk still does after a step if and only if the step skips no bytes in a walk and downloads no more than is counted |
| Ceiling.RunCoversExactly | turma/archive.js:1182-1216 | all through a run if and only if at the start and every step is such |
| Ceiling.BootCoversExactly | turma/archive.js:1182-1216 | at boot, before any walk, if and only if every file is empty |
| Ceiling.OvershootIsOneWrite | turma/archive.js:1182-1216 | from a count that covers the disk, over any clean run, every accepted write starts below its limit, so the overshoot is less than that write |
| Ceiling.AcceptedStartsBelow | turma/archive.js:1298-1306 | from any boot, whatever fails, the overshoot is bounded by the bytes no walk or charge has seen |
| Ceiling.RunKeepsInv | turma/archive.js:1182-1216 | nothing on disk escapes both the meter and the record of unseen bytes |
| Ceiling.WalkCoversExactly | turma/archive.js:1205-1208 | a walk's total covers the disk, and each tenant's total its files, if and only if every file it skips is empty |
| Ceiling.FailedFirstWalkAccepts | turma/archive.js:1190-1204 | a hub whose first walk fails accepts a write whatever is on disk |
| Ceiling.SkippedDirectoriesAccept | turma/archive.js:1056-1076 | so does one whose walk can read no directory |
| Ceiling.DownloadIsUncharged | turma/archive-mirror.js:788-801 | a download is not counted until the next walk |
| Ownership.FirstFreeIsFree | turma/archive.js:1446-1472 | the name chosen has no other owner, and none is chosen only when every candidate has one |
| Ownership.CandidatesDiffer | turma/archive.js:1446-1472 | the thousand counted names, and the thousand and one seeded with the id, are all different |
| Ownership.PutKeepsInverse | turma/archive.js:633-636 | filing a path nobody else holds keeps the path index the exact inverse of the rows |
| Ownership.SessionIndex.ResolveNewRelPath | turma/archive.js:1446-1472 | the first free of 2001 candidates, null exactly when all are taken |
| Ownership.SessionIndex.FileChunk | turma/archive.js:1557-1566 | a transcript keeps its path or takes the first free one |
| Ownership.OwnershipForLife | turma/archive.js:1667-1682 | over every run no two transcripts share a file, the index is the exact inverse of the rows, and no path changes |
| Ownership.StepKeepsOwnership | turma/archive.js:633-636 | each step keeps it |
| Projection.ContinuesBatch | agent/qwen_session.py:293-314 | feeding new bytes behind the held fragment continues the batch exactly |
| Projection.SplitAppend | agent/qwen_session.py:293-314 | the lines of a log cut anywhere are the lines before and after the held fragment |
| Projection.FedAppend | agent/runtime_projection.py:130-139 | feeding in two parts equals feeding once |
| Projection.ProjectionIsOneChain | agent/runtime_projection.py:98-121 | every batch holds exactly the entries of the events that render, in order, each with the uuid of its event's own position, as one parentUuid chain with distinct uuids |
| ProjectionTail.Projector.Feed | agent/qwen_transcript.py:313-331 | the position advances on every event and the parent only on an entry |
| ProjectionTail.Projector.ProjectBytes | agent/qwen_session.py:293-314 | the split loop emits the events of the complete lines and hands back the fragment |
| ProjectionTail.QwenTail.RebuildTranscript | agent/qwen_session.py:316-360 | the transcript is replaced by the batch, and state committed, only if the write succeeds |
| ProjectionTail.QwenTail.Pump | agent/qwen_session.py:362-398 | one pump against the specification, resume and shrink included |
| ProjectionTail.ChildProjection.Pump | agent/runtime_tail.py:375-429 | one child pump, idle skip and shrink reset included |
| ProjectionTail.PumpKeepsStep | agent/qwen_session.py:362-398 | every pump keeps agreement with the batch and a working one ends equal to it |
| ProjectionTail.ChildPumpKeepsStep | agent/runtime_tail.py:375-429 | after a pump, its shrink reset included, the child has exactly the batch over what it read |
| ProjectionTail.ChildEqualsBatch | agent/qwen_session.py:429-465 | over every life of a child, growing, rewritten, its tail dying and seeing it afresh, a pump that reads leaves the batch, one chain |
| ProjectionTail.RunKeepsTail | agent/qwen_session.py:362-398 | over every run of appends, rewrites a tail can notice, failures and restarts |
| ProjectionTail.TailEqualsBatch | agent/qwen_session.py:293-398 | however the log was cut and wherever the tail died, no rewrite having gone unnoticed, a working pump leaves exactly the batch, one chain |
| ProjectionTail.RewriteExactly | agent/qwen_session.py:384-398 | a tail that finds the log at least as long as its cursor stays equal to the batch, for every runtime with distinct uuids and further growth, if and only if the bytes before the cursor are unchanged |
| ProjectionTail.RegrownLogDiverges | agent/qwen_session.py:384-398 | the run: launched, pumped, rewritten and regrown past the cursor, pumped, and not the batch |
| DeltaTail.Watcher.Poll | agent/tunnel-agent.js:2459-2522 | the new watcher state and the frame sent, committed only when delivered |
| DeltaTail.Difference | agent/tunnel-agent.js:2492-2499 | the delta and the window's weights |
| DeltaTail.NextFrameIsTheChange | agent/tunnel-agent.js:2486-2518 | after a committed window the next frame holds the changed entries, in order, and no others; none is sent when nothing changed |
| DeltaTail.CommittedPollShowsWindow | agent/tunnel-agent.js:2459-2522 | after every run of polls, failures and re-arms, a deliverable poll commits and a committed one leaves every viewer with the whole current window and queue |
| DeltaTail.RunKeepsInv | agent/tunnel-agent.js:2459-2522 | what the watcher believes of its viewers stays true |
| DeltaTail.MergeIs | turma/public/chat.js:1297-1312 | after a merge each id holds the frame's accepted copy or what was there |
| DeltaTail.MergeTakesExactly | turma/public/chat.js:1297-1312 | the chat page keeps its copy of an entry if and only if that is heavier and the new one brings no first blocks |
| DeltaTail.FrameLandsExactly | agent/tunnel-agent.js:2492-2518 | a frame leaves a viewer showing the window if and only if every entry lands |
| DeltaTail.SameLengthEditIsLost | agent/tunnel-agent.js:2494-2498 | a committed poll that leaves a viewer stale |
| DeltaTail.ShrunkEntryIsKept | turma/public/chat.js:1297-1312 | the chat page keeps a heavier old copy |
| Forwarding.HopListRoundTrip | turma/forward.js:331-343 | what one replica joins the next one parses |
| Forwarding.ParsedIsTrimmedParts | turma/forward.js:331-343 | any list is read as its parts between commas, trimmed, blank ones dropped |
| Forwarding.OnlyProvenListsCount | turma/forward.js:284-332 | without a key a list is believed, with one only a proven list is |
| Forwarding.NextReplicaKnows | turma/forward.js:284-343 | the next replica reads every hop; the sender reached again recognises its own proof |
| Forwarding.Forwarder.IsOwnAddr | turma/forward.js:349-355 | own endpoint or live alias; only expired aliases are dropped |
| Forwarding.Forwarder.DecideNow | turma/forward.js:395-431 | the decision, every branch, dropping only expired entries |
| Forwarding.Forwarder.Route | turma/forward.js:475-502 | the polling loop ends as the specification says, the sweep notwithstanding |
| Forwarding.SweepIsHarmless | turma/forward.js:349-355 | dropping expired entries changes no later decision |
| Forwarding.ForwardingIsBounded | turma/forward.js:395-431 | whatever each replica believes, the hop list stays free of repeats and at most two long |
| Forwarding.ClientRequestIsBounded | turma/forward.js:395-431 | a client's request is forwarded at most twice, by different replicas |
| Forwarding.OwnProofIsRefused | turma/forward.js:395-431 | a replica's own proof come back is answered 508 unless it may serve |
| Forwarding.IgnoredProofsForwardForever | turma/forward.js:284-332 | with proofs that do not verify there is no bound |
| Forwarding.WaitGoesOnExactly | turma/forward.js:475-502 | past its deadline a wait goes on if and only if every turn finds a leader to dial, not on cooldown from the start or an earlier turn, and that dial fails |
| Forwarding.EndingsAreSafe | turma/forward.js:475-502 | own proof ends in 508 at once, and a draining replica never serves after a hold |
| ForwardingWait.TurnEnds | turma/forward.js:395-502 | how a turn ends the wait for each thing it can find, in order: client gone, serves here, own proof, barred, leader without address, dialled leader, draining |
| ForwardingWait.HeldElsewhereIsRefused | turma/forward.js:402-409 | with the store link down and the lease held elsewhere the first turn ends the wait in a refusal, never in a second writer |
| ForwardingWait.HoldLastsExactly | turma/forward.js:475-502 | with nobody to dial the request is served here, degraded, if and only if a turn comes `holdMs` after the first |
| ForwardingWait.HoldEndsWith | turma/forward.js:475-502 | a hold ends at once when a leader can be dialled, this replica takes over, or it is barred |
| ForwardingWait.FailedDialCoolsDown | turma/forward.js:424-440 | an address that could not be dialled is left alone for exactly its cooldown |
| Forwarding.FewLeadersEnd | turma/forward.js:475-502 | past its deadline a wait ends within one turn more than there are addresses on offer, as long as none comes off cooldown |
| Forwarding.EverNewLeadersNeverEnd | turma/forward.js:483-491 | ever new dead addresses keep it waiting for any number of turns |
| Layering.LayerWaves | turma/epic-plan.js:62-92 | the waves are a layering of the keys, and `cycle` is empty exactly when the dependencies are acyclic |
| Layering.KeysAreConserved | turma/epic-plan.js:62-92 | the waves and `cycle` together are the keys, each exactly as often as collected |
| Layering.WaveFollowsBlockers | turma/epic-plan.js:81-91 | every blocker of a key is in an earlier wave, and one is in the wave just before |
| Layering.WaveIsDepth | turma/epic-plan.js:62-92 | a wave number is one more than the deepest blocker's |
| Layering.PlacedOnce | turma/epic-plan.js:62-92 | no key is in two waves |
| Layering.CycleIffStalled | turma/epic-plan.js:81-92 | `cycle` is empty if and only if acyclic, and otherwise contains a real cycle |
| Layering.StalledSetHasCycle | turma/epic-plan.js:84-91 | a set in which every key is blocked from within contains a closed walk |
| Layering.SinkConverges | turma/epic-plan.js:108-121 | a key blocked by all others is alone in the last wave |
| Layering.CollectKeys | turma/epic-plan.js:62-70 | the keys in first-seen order, each once |
| Layering.CollectBlockers | turma/epic-plan.js:71-80 | each key's blockers within the set |
| Layering.KeysAre | turma/epic-plan.js:62-70 | the keys are the nonempty ones of the rows, in order of first appearance |
| Layering.GraphIs | turma/epic-plan.js:71-80 | one key blocks another if and only if the last row of that other names it and it is a key itself |
| EpicPlan.ValidateEpicPlan | turma/epic-plan.js:130-246 | each error code is reported if and only if it is due, and a plan is valid if and only if none is; what is due is in the three rows below |
| EpicPlan.FieldCodesMean | turma/epic-plan.js:180-213 | each field code is due if and only if some named child has that very fault |
| EpicPlan.ShapeCodesMean | turma/epic-plan.js:134-178 | and each shape code if and only if the plan or a child has that shape |
| EpicPlan.AcceptedExactly | turma/epic-plan.js:130-246 | no code is due if and only if the epic has a summary, there are children, each whole, uniquely named and blocked by others only, without a cycle, the last behind all |
| EpicPlan.AcceptedPlanConverges | turma/epic-plan.js:98-246 | an accepted plan has no cycle and its last wave is exactly the final child |
| EpicPlan.FinalIsSink | turma/epic-plan.js:118-246 | in an accepted plan the final child is blocked by all others |
| Tar.SplitUstarName | turma/tar.js:43-58 | null if and only if no split fits |
| Tar.OctalRoundTrip | turma/tar.js:60-63 | a number that fits its field reads back |
| Tar.OctalOverflow | turma/tar.js:60-63 | one that does not leaves no terminator |
| Tar.HeaderSum | turma/tar.js:81-83 | the checksum fits six octal digits |
| Tar.Header | turma/tar.js:66-87 | the buffer written in place is the specified header, or none for an inexpressible name |
| Tar.HeaderReads | turma/tar.js:66-87 | a reader recognises the header, its checksum verifies, and it carries name and size |
| Tar.SizeReadsExactly | turma/tar.js:75 | the size reads back if and only if it is below 8^11 |
| Tar.MetaReadsExactly | turma/tar.js:71-80 | a reader finds a plain file of mode 0644, owned by root, without a link, and its time if and only if that is below 8^11 |
| Tar.NameReadsExactly | turma/tar.js:43-58 | the name reads back if and only if it has no NUL and was not split at a leading slash |
| Tar.LeadingSlashIsLost | turma/tar.js:49-56 | a name that comes back without its slash |
| Tar.Stream | turma/tar.js:123-138 | exactly `size` octets, cut or NUL-filled, and short reported exactly when it was |
| Tar.Pack | turma/tar.js:112-142 | the archive, the skipped names and the short ones |
| Tar.ReportsExactly | turma/tar.js:112-142 | a name is reported skipped if and only if it cannot be expressed, and short if and only if its content ran out |
| Tar.RoundTrip | turma/tar.js:112-142 | a POSIX reader recovers every packable member and its octets if and only if each survives |
| Tar.RelativeNamesSurvive | turma/tar.js:43-58 | relative names without NUL and sizes below 8^11 always survive |
| Tar.WholeBlocks | turma/tar.js:89-142 | the stream is a multiple of 512 octets |

## Left out

- SigV4, HTTPS, S3 and Postgres sockets, push notifications and service-account files: I/O and cryptography over unseen libraries.
- The compression and size cap around the tar stream, and `mtime` before it is floored.
- Socket linger, drain and pipe handling in forwarding, alias learning, and the clock window and replay cache of hop proofs: `Verified` takes one flag for them.
- Schema, corruption self-heal and queries of the archive index, search, browsing, tenant scopes, purges and the index reclaim.
- Per-transcript raw caps, tenant and org checks of ingest: one `refused` flag of `IngestChunk`.
- Sidecars as mirrored objects, deletions other than of untouched objects, and `confirmLost`, which adopts a previous leader's last push as blocked, in the mirror.
- The order in which the chat page shows merged entries, the live `turn` frames and heartbeat seeds of the delta tail.
- The trimming of rows past a repaired file by the leader (the repair's own replace) inside the convergence system; `ReplaceEntries` covers it alone.
- The mapping of one native event to an entry body, title capture and link refusal in the projection tails; `parse` and `render` are parameters.
- agent/dsh_session.py and agent/dsh_transcript.py: their resume starts at the end of the log, so batch equality does not hold there.
- Shell-kind detection, pane scraping, viewers and scripts: no crisp specification, or easy members only.
- IngestIsExactlyOnce: a crash between row and sidecar is admitted only where `CrashAfterRowExactly` says it is safe.
- AcceptedStartsBelow: an upper bound for every boot and every failure; when the ceiling holds exactly is `CeilingExactly`.
- IndexConverges: assumes the ordinal an append starts at, which `OrdinalExactly` shows to be the only right one.
- MutualExclusion: assumes one shared clock, so clock skew between replicas is not modelled.
- EndingsAreSafe: does not promise that a wait ends; `WaitGoesOnExactly` says when it does.
