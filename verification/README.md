# CFLS coordination: model and proofs

CFLS lets several developers' agents share who holds which soft lock, who is editing what and who
intends to change what. A coordination host orders their events by Event_Revision; every agent keeps
a cache that it updates from the host's broadcasts. This project models that system in Dafny and
proves what it promises, over every run with crashes, failed commits, reconnections and expiry sweeps.

`dafny verify dfyconfig.toml` checks everything.

## How it is organised

**The host.** `Locks`, `Intents`, `Presences` are the registries as values, `Registries` what one event
or one expiry sweep does to them and announces, `Host` the whole step of ingesting, committing, fencing
and recovering. The classes in `LockRegistry.dfy`, `IntentRegistry.dfy`, `HostParts.dfy`, `Authority.dfy`
and `SyncCache.dfy` update their fields as the program does; each method is proved equal to those
functions, so what the lemmas prove about the functions holds of the objects.

- `LockProofs`, `States`, `HostProofs`: every operation keeps the registries, the revisions and the
  durable tables consistent; serialising and restoring loses nothing.
- `Convergence`, `EventConvergence`, `SweepConvergence`, `Projection`: a cache slot is compared with the
  projection of the host's winning locks, live presence and live intents. For every event and every
  sweep the exact condition is proved under which its announcement carries all caches from the old
  projection to the new one.
- `ClaimEffects`, `EntryEffects`: what each event and each sweep does to claims, intents, presence, known
  files and audits, entry by entry and in terms of their fields, so that who may change what, and what
  stays as it is, can be read off. `Announcements`, `SweepAnnouncements`: which changes each event and each
  sweep announces, in both directions. `RunEffects`: which events are admitted at all, and these effects over
  whole runs.
- `Runs`: the step protocol with crashes, failed commits and restarts, and one client with its cache,
  connection and sync request. `ClientRuns`: the client converges. `ClaimOrder`: the claims of a scope stay
  in the order of their revisions. `SilentSweeps`: when a sweep has nothing to announce.
- `FailingRuns`: for each promise below that the host breaks, a short run from a fresh start that breaks it.

**Beside it**, each in its own module: the line diff of the editor preview (`LineDiff`), the service
argument printers and the plan executor (`ServiceText`, `ServicePlans`), the dependency-delta merge
(`DependencyGraphs`, over the lists edited by key of `KeyOrder`), the durable replay counter of the agent
together with the host's guard
(`AgentReplay`), the folder scanner (`FolderScans`), the active-editor bookkeeping of extension and agent
(`EditorScopes`), the Local_API pipe framing and subscription life (`LocalApi`), the MCP bridge's
request table (`McpRequests`), the regrouping of cached intents (`SnapshotIntents`), the pairing limiter
and one-shot codes (`DemoPairing`), the porcelain parser (`Porcelain`), and the flood fill of the brand
tool (`BrandMark`). `Protocol`, `JsMaps`, `JsText` and `Paths` hold what they share.

## Where the code does not keep its promise

Each of these is a lemma with the exact condition, and for the host a run from a fresh start that fails.

- *Replaying the broadcasts gives the host's state.* `EventConvergence.ApplyCarriesIff` says when an event
  keeps this, and `ClientRuns.EventFollowedIff` says it of whole runs. It fails for a presence report of a
  member's second device on one path, and on hosts that fold letter case also for the same device under
  another spelling: the registry keeps one record per member and folded path, the caches one per device and
  spelling (`FailingRuns.SecondReport`). On such hosts it fails, too, for renames, deletions and creations
  under another spelling of a path, because the registry matches by folded key and the announcement by
  spelling (`FailingRuns.IntentUnderOtherSpelling`), and for renaming a sole lock to another spelling of its
  own path, which announces nothing (`FailingRuns.RespellingRename`). On case-sensitive hosts only the second
  device remains (`EventConvergence.SpellingHostsAnnounce`).
- *Expiry removes what it announces.* The soft-lock age pass announces the removal of a losing claim in the
  same cache slot as the winner that stays, and so hides the winner (`SweepConvergence.SweepCarriesIff`,
  `SweepConvergence.AgePassHidesWinner`, `ClientRuns.SweepFollowedIff`). A claim renamed onto a path that its
  member holds already is such a claim (`FailingRuns.AgedRename`).
- *A silent sweep changes nothing.* A sweep is silent exactly if no stale device holds a claim, live presence
  or an intent with a path, and no soft claim is too old (`Runs.SilentSweepIff`). It commits nothing, but it
  drops the intents without paths that stale devices own; memory stays as it was exactly if there are none,
  and a restart brings them back (`Runs.SilentSweepIsForgotten`, `FailingRuns.SweptAndBack`).
- *Only a storage failure fences the host.* A retry of a rejected event id with a fresh replay counter hits
  the uniqueness of the event table, and the working storage reports a failure
  (`Runs.RetryOfRejectedFences`, `FailingRuns.RetryFences`).
- *A synced client is current.* A broadcast that overtakes the answer to the sync request moves the cursor
  past the missed updates. An answer made of updates is then ignored (`ClientRuns.OvertakenSync`), and a slot
  is right exactly if the overtaking updates settle it or the missed ones left it alone
  (`ClientRuns.OvertakenAnswered`, `FailingRuns.OvertakenRun`); a snapshot repairs everything.
- *A delta merge is idempotent.* Edge by edge and contract by contract it is
  (`DependencyGraphs.MergeIsIdempotent`, `DependencyGraphs.LastContractWins`). As lists they stay exactly if,
  in no file and not among the contracts, one that was removed comes back before a new one is added
  (`DependencyGraphs.MergeRepeatsIff`); otherwise the second merge moves the first one behind
  (`DependencyGraphs.SecondMergeSwaps`).
- *The agent owns exactly the active file.* Renaming the active file between a path that the agent accepts
  and one that it refuses parts the two, and the old scope survives the next tab switch
  (`EditorScopes.ActionFollowedIff`, `EditorScopes.RefusedRenameStrandsTheScope`).
- *An accepted editor path is relative.* The drive letter is looked for before the path is normalised, so a
  path that resolves to one with a drive in front is accepted (`EditorScopes.DriveMayRemain`,
  `EditorScopes.DriveBehindDot`).
- *Porcelain output reads back.* The default runner trims git's output; a list whose first change is
  unstaged starts with a space and loses it, and with it the first character of the path
  (`Porcelain.TrimmedReadsBackIff`). And git prints an origin also when only the second column says rename or
  copy, which the parser then takes for an entry (`Porcelain.FullyPrintedReadsBackIff`).
- *The limiter lets 60 attempts through.* The exact bound is 59 (`DemoPairing.AtMostFiftyNine`,
  `DemoPairing.FiftyNineCanPass`).

## Model

| member | source | states |
|---|---|---|
| Runs.PublishedIsDurable | apps/host/src/authority.ts:582-755 | over every run with crashes, failed commits and restarts: broadcast revisions strictly increase; every broadcast update lies in the revision range of the row of an applied event or has an expiry audit naming its member, path and revision; every acknowledgement has its applied record; persisted replay counters increase per device; and the live state is the stored one |
| Runs.RevisionsAreFresh | packages/core-state/src/revisions.ts:68-101 | the next revision lies above every one ever broadcast, also after recovery |
| Runs.RunIsSafe | apps/host/src/authority.ts:519-755 | the run invariant: tables sound, history ordered, log equal to the history after its compaction mark, acknowledgements backed by the applied index |
| Runs.StepIsSafe | apps/host/src/authority.ts:519-755 | every single step keeps it, whatever fails and wherever it crashes |
| Runs.FailedCommitRollsBack | apps/host/src/authority.ts:2253-2280 | whatever step fences the host (failing storage, a row that is already there, a sweep): registries, counter, log and tables are as before it, and nothing is published or acknowledged |
| Runs.FencedStaysFenced | apps/host/src/authority.ts:582-587 | a fenced process accepts, changes and publishes nothing for the rest of its life |
| Runs.AppliedAtMostOnce | packages/core-state/src/ingest.ts:196-207 | a resubmitted acknowledged event, also after crashes and restarts, changes nothing and is answered with its first revision |
| Runs.AppliedForever | apps/host/src/store.ts:359-405 | recorded events stay recorded with their revision over the rest of any run |
| Runs.RetryOfRejectedFences | apps/host/src/authority.ts:637-667 | with working storage a commit fails exactly when the event table already holds the id of a rejected event |
| Runs.RejectedNeverApplies | apps/host/src/authority.ts:637-677 | a rejected event can never become an applied one, in any continuation |
| Runs.RejectionIsRecorded | apps/host/src/authority.ts:637-677 | a rule rejection leaves its row in the event table and no applied record |
| Runs.SilentSweepIsForgotten | apps/host/src/authority.ts:2160-2217 | a sweep with nothing to announce leaves the tables alone and drops exactly the intents of the stale devices, which have no path; a restart brings them back; memory stays as it was if and only if no stale device owns an intent |
| Runs.SilentSweepIff | packages/core-state/src/expiry.ts:292-393 | with working storage a sweep announces nothing if and only if no stale device holds a claim, live presence or an intent with a path, and no soft claim is too old |
| RunEffects.AcceptedIff | packages/core-state/src/ingest.ts:174-237 | an event is accepted if and only if it is authentic, well formed and permitted, the host is not fenced, its id is neither applied nor rejected before, its counter is above every stored one of its device and its nonce new, the rules allow it and the storage works |
| RunEffects.RulesRefuseIff | apps/host/src/authority.ts:764-1104 | the rules refuse exactly an override without a reason, a release of what the member does not hold, an event about an intent that it may not touch or with impossible paths, and nothing else of the modelled kinds |
| RunEffects.InadmissibleChangesNothing | apps/host/src/authority.ts:582-677 | an event that fails any test before the rules changes neither memory nor tables and is told the first reason |
| RunEffects.NonceAndCounterServeOnce | packages/security/src/replay.ts:67-105 | after an event was admitted, none of its device is admissible with its nonce, with a counter not above its own, or with its id once applied |
| RunEffects.RejectedReply | apps/host/src/authority.ts:637-677 | an admissible event that the rules refuse is recorded and answered with the reason, and leaves state, audits and applied index alone |
| RunEffects.IntentsLeaveByTheirOwners | packages/core-state/src/intents.ts:498-509 | over every run an intent leaves only by a withdrawal of its owner or a sweep of its owner's device, and never changes its owner |
| RunEffects.OnlyTheOwnerWithdraws | packages/core-state/src/intents.ts:444-509 | the owner's withdrawal is accepted and takes exactly that intent; a withdrawal or update of another member is rejected as not the owner's and changes nothing |
| RunEffects.SweepTakesExactly | packages/core-state/src/expiry.ts:292-393 | at the end of any run a sweep takes exactly the claims of stale devices and the soft claims acquired before the cutoff; a failed one takes nothing, and every other claim stays in memory and in the tables |
| RunEffects.FirmClaimsSurvive | packages/core-state/src/locks.ts:542-576 | a hard or coordination-required claim of a device that is not stale survives every sweep, in memory and in the tables |
| RunEffects.AcceptedClaims | apps/host/src/authority.ts:764-1104 | at the end of any run an accepted event adds and takes exactly its own claims, field by field, and leaves every other claim |
| RunEffects.KnownFilesStay | packages/core-state/src/intents.ts:526-552 | a known file stays known until its deletion or renaming is reported or the process ends |
| RunEffects.KnownFilesWereReported | packages/core-state/src/intents.ts:257-273 | a known file was reported as created, or renamed to, since the process started |
| RunEffects.AcceptedIsAudited | apps/host/src/authority.ts:709-755 | an accepted event that is audited keeps its audit in the tables over any continuation, also if the process crashes right after the commit |
| EntryEffects.IntentEventRefusedIff | packages/core-state/src/intents.ts:398-509 | an event about an intent is refused exactly if it names an unknown one, one of another member, or impossible paths, with that reason |
| EntryEffects.DeclarationRecords | packages/core-state/src/intents.ts:319-356 | planned modifications are recorded in order, planned creations of files that exist join them once each, and the others stay creations |
| EntryEffects.EventIntents | packages/core-state/src/intents.ts:777-880 | what each event does to each intent: renames move a path for everyone, creations end plans, deletions take the path from the reporting member's intents, and nothing else changes |
| EntryEffects.OthersLeaveIntents | packages/core-state/src/intents.ts:444-509 | an event of another member changes an existing intent only by a rename or a file creation, and only its paths |
| EntryEffects.EventPresence | packages/core-state/src/presence.ts:88-109 | a report replaces exactly the member's record on that path; no other event touches presence |
| EntryEffects.EventFiles | packages/core-state/src/intents.ts:526-552 | which files are known after each event |
| EntryEffects.EventAudits | apps/host/src/authority.ts:764-1104 | which events are audited, with member, action, scope and revision; no other event is |
| EntryEffects.SweepEntries | packages/core-state/src/expiry.ts:292-371 | a sweep drops exactly the intents that stale devices own and stops exactly their live presence; every other entry stays |
| ClaimEffects.EventClaims | packages/core-state/src/locks.ts:190-446 | exactly these claims come and go with each applied event: the one acquired, the winner of the named scope, the member's earliest claim of a deleted or renamed file |
| ClaimEffects.PassReports | packages/core-state/src/locks.ts:472-576 | the age pass reports a claim if and only if it is soft and was acquired before the cutoff, a device pass if and only if that device holds it |
| ClaimEffects.SweepClaims | packages/core-state/src/expiry.ts:292-393 | a sweep leaves exactly the claims that are neither a stale device's nor soft and too old |
| Announcements.EventAnnouncesIff | apps/host/src/authority.ts:764-1104 | a change is announced with an applied event if and only if it has to be: a scope stopped or started to show a lock, presence was reported, an intent's path came or went |
| Announcements.AffectedIff | packages/core-state/src/intents.ts:777-880 | an operation on files returns exactly the intents that list the path, in their new form |
| SweepAnnouncements.SweepAnnouncesIff | packages/core-state/src/expiry.ts:222-393 | a change is announced with a sweep if and only if it has to be: everything that stale devices lose, the soft claims that are too old, and the next claim of each scope whose shown one was taken |
| SilentSweeps.SweepSilentIff | packages/core-state/src/expiry.ts:292-393 | the same for the sweep of a valid state, through every device pass and the age pass |
| SilentSweeps.SilentSweepDropsExactly | packages/core-state/src/expiry.ts:292-393 | such a sweep leaves locks, presence and files alone and keeps exactly the intents of the other devices |
| ClientRuns.SyncedClientConverges | packages/core-state/src/sync.ts:322-484 | a synced client that has received every broadcast shows exactly the projection of the host's state, through crashes, restarts, reconnections and overtaken deliveries that a snapshot repairs, in every run the caches can follow |
| ClientRuns.ReplayGivesTheProjection | apps/host/src/authority.ts:1765-1792 | replaying every committed update on an empty client gives the projection of winning locks, live presence and live intents, whatever the client does |
| ClientRuns.RunConverges | packages/core-state/src/sync.ts:282-301 | the run invariant behind both |
| ClientRuns.StepFollowed | packages/core-state/src/sync.ts:370-466 | each followable step keeps the client on the host's history |
| ClientRuns.OvertakenSync | packages/core-state/src/sync.ts:370-433 | in every followable run, an answer made of updates that a broadcast has overtaken changes nothing, and the cursor has passed all that is missing |
| ClientRuns.OvertakenShows | packages/core-state/src/sync.ts:370-433 | before that answer, an overtaken client shows a slot right if and only if the overtaking updates settle it or the missed ones left it alone |
| ClientRuns.OvertakenAnswered | packages/core-state/src/sync.ts:370-484 | and with nothing left to deliver it is synced and shows a slot as the host does under exactly that condition |
| ClientRuns.EventFollowedIff | apps/host/src/authority.ts:764-1104 | at the end of any followed run, replaying the whole history after one more accepted event shows the host's state if and only if the event meets the condition `Announced` |
| ClientRuns.SweepFollowedIff | packages/core-state/src/expiry.ts:292-393 | the same for one more sweep and its condition |
| FailingRuns.SecondReport | packages/core-state/src/presence.ts:88-109 | after two reports of one member on one path, from two devices or in two spellings that the host folds, replaying the broadcasts shows some slot differently from the host |
| FailingRuns.RespellingRename | apps/host/src/authority.ts:1435-1490 | the same after acquiring a lock and renaming it to another spelling of its path |
| FailingRuns.IntentUnderOtherSpelling | apps/host/src/authority.ts:1053-1104 | the same after declaring an intent and deleting, renaming or creating its file under another spelling |
| FailingRuns.AgedRename | packages/core-state/src/expiry.ts:372-393 | the same after taking two locks, renaming the older onto the younger one's path, and letting it age out |
| FailingRuns.SweptAndBack | apps/host/src/authority.ts:2160-2217 | a planned creation happens, a sweep of its device drops the emptied intent without a broadcast, and after a crash and a restart it is back |
| FailingRuns.RetryFences | apps/host/src/authority.ts:637-667 | a withdrawal of an unknown intent, retried with a fresh counter, fences the host although the storage works |
| FailingRuns.OvertakenRun | packages/core-state/src/sync.ts:370-433 | a lock is taken, a client connects, another lock is taken, its broadcast overtakes the answer: the synced client never shows the first lock |
| FailingRuns.PathsExist | packages/core-state/src/path.ts:38-104 | paths as these runs need them: two with different keys on every host, two spellings of one key on a case-folding one |
| EventConvergence.ApplyCarriesIff | apps/host/src/authority.ts:764-1104 | the announcement of an applied event carries every cache from the old projection to the new one if and only if the event meets the condition `Announced` |
| EventConvergence.SpellingHostsAnnounce | packages/core-state/src/path.ts:85-104 | on hosts that match paths by spelling that condition fails only for a presence report from a second device of one member on one path |
| EventConvergence.CaseSensitiveHosts | packages/core-state/src/path.ts:38-104 | case-sensitive hosts are such hosts |
| SweepConvergence.SweepCarriesIff | packages/core-state/src/expiry.ts:292-393 | an expiry sweep announces exactly what it changes if and only if no losing claim that ages out shares its slot with a winner that stays |
| SweepConvergence.AgePassHidesWinner | packages/core-state/src/expiry.ts:372-393 | otherwise a named slot of a kept winner is gone from every cache |
| SweepConvergence.DevicePassSwept | packages/core-state/src/locks.ts:472-501 | a device's pass never touches the slot of a surviving winner |
| SweepConvergence.PhaseCarries | packages/core-state/src/expiry.ts:222-251 | removals followed by promotions carry every lock slot, each promotion announced once |
| SweepConvergence.StopAllStops | packages/core-state/src/presence.ts:158-185 | every listed record is stopped and no other one changes |
| Convergence.TransitionCarries | apps/host/src/authority.ts:1765-1792 | announcing a change of winner carries the slots of its group, unless the winner was respelled |
| Convergence.RespelledIsLost | apps/host/src/authority.ts:1435-1490 | a claim respelled by a rename is shown in a slot that nobody was told about |
| Convergence.SecondDeviceIsKept | packages/core-state/src/presence.ts:88-109 | the first device's presence entry stays in every cache although the host has dropped it |
| Convergence.MoveMeets | packages/core-state/src/intents.ts:777-835 | announced and registered path moves meet whenever the spellings agree |
| Convergence.MoveMisses | apps/host/src/authority.ts:1492-1538 | otherwise some path stays announced although the registry has moved it |
| Convergence.EventBreaksIntent | apps/host/src/authority.ts:1053-1104 | whenever the intent condition fails, some slot of the intent goes wrong |
| Projection.SnapshotShows | packages/core-state/src/sync.ts:104-169 | a cache replaced by the host's snapshot shows what the host's state projects to |
| HostProofs.IngestKeeps | apps/host/src/authority.ts:519-755 | memory and tables stay in step through any ingest; afterwards the host is ready or fenced with its previous state |
| HostProofs.SweepExpiryKeeps | apps/host/src/authority.ts:2160-2217 | the same for a sweep: a failed one rolls back, a silent one commits nothing, an announced one is stored |
| HostProofs.RecoveredRuns | apps/host/src/authority.ts:2283-2317 | recovery from sound tables gives a running host whose counter is the durable watermark |
| HostProofs.SnapshotRoundTrip | packages/core-state/src/snapshot.ts:87-221 | restoring a serialised state returns it, apart from the set of tracked files |
| HostProofs.ConflictNamesTheWinner | apps/host/src/authority.ts:1795-1846 | an acquisition or override is acknowledged with a conflict if and only if another member wins, or the requester wins with a later claim of its own; it names that winner, and a duplicate is told the same but for that second case; an override fails exactly for a blank reason |
| HostProofs.CommitsUnlessKnown | apps/host/src/store.ts:334-357 | an event row can be inserted exactly when no row has its event id |
| States.ApplyKeeps | apps/host/src/authority.ts:764-1104 | an applied event leaves valid registries whose revisions and ids stay within what was handed out |
| States.SweepKeeps | packages/core-state/src/expiry.ts:292-393 | so does a sweep, one revision per announced change |
| Locks.WinnerIsEarliest | packages/core-state/src/conflict.ts:118-146 | the winner precedes every other claim by Event_Revision, then by id |
| Locks.EarliestIsWinner | packages/core-state/src/conflict.ts:91-146 | and only it does |
| Locks.WinnerIsFirst | packages/core-state/src/conflict.ts:91-133 | no claim has a lower revision than the winner, and none of the same revision an id before the winner's |
| Protocol.TextLessIff | packages/core-state/src/conflict.ts:91-103 | the tie-break order of ids, at the first place where two texts part |
| Locks.SameGroupIff | packages/core-state/src/locks.ts:120-134 | two scopes contend exactly if both are globs of one text or neither is a glob and their path keys agree |
| Locks.ResolvedFlags | packages/core-state/src/locks.ts:164-179 | resolution flags every claim but the winner, changes nothing else and is stable |
| LockProofs.AcquireKeeps | packages/core-state/src/locks.ts:190-243 | an acquisition leaves the standing winner, wins a free scope, and touches no other scope |
| LockProofs.ReleaseKeeps | packages/core-state/src/locks.ts:253-320 | only the winner's member releases; the next claim in revision order is promoted; no other scope changes |
| LockProofs.ReleaseFailsIff | packages/core-state/src/locks.ts:253-320 | a release fails exactly when it names no live group, or one that another member wins |
| LockProofs.ContendedIff | packages/core-state/src/locks.ts:190-243 | an acquisition is contended if and only if another member wins the scope, or the requester wins it with another claim than its first |
| ClaimOrder.ClaimsStayInOrder | packages/core-state/src/locks.ts:164-576 | over every run, through crashes and restarts, the claims of every scope stand in the strict order of their revisions |
| ClaimOrder.FirstClaimWins | packages/core-state/src/conflict.ts:118-146 | so the first claim of a scope wins it, and nobody wins with a later claim of their own |
| ClaimOrder.EveryConflictNamesTheWinner | apps/host/src/authority.ts:1795-1846 | in every run an accepted acquisition or override is answered with a conflict exactly if another member wins the scope, naming that winner, and a duplicate is told the same |
| LockProofs.DropClaimKeeps | packages/core-state/src/locks.ts:418-445 | a dropped claim leaves the registry, and the winner changes only if it was that claim |
| LockProofs.TransferKeeps | packages/core-state/src/locks.ts:353-409 | a transferred claim leaves its group and wins the new one only if it was free |
| LockProofs.ExpireMovesWinner | packages/core-state/src/locks.ts:472-576 | how an expiry pass moves each winner, in terms of what it reports |
| LockProofs.ExpireGroupsReport | packages/core-state/src/locks.ts:472-576 | exactly the expired claims are reported |
| LockProofs.LocksRoundTrip | packages/core-state/src/locks.ts:513-589 | restoring all locks returns every group, claim order and flag |
| Intents.AllAfterKeeps | packages/core-state/src/intents.ts:777-880 | renames, deletions and creations keep every intent's path sets normal and bounded |
| Intents.IntentsRoundTrip | packages/core-state/src/intents.ts:751-765 | restoring the serialised intents returns the registry |
| Presences.PresenceRoundTrip | packages/core-state/src/presence.ts:197-215 | restoring the serialised presence returns the registry |
| Presences.ReportTells | packages/core-state/src/presence.ts:88-109 | a report older than the record changes nothing, any other replaces exactly the member's record on the path |
| Presences.StopsInOrder | packages/core-state/src/presence.ts:136-156 | a device's records are stopped in the order of paths and members |
| Presences.RestoreKeepsNewest | packages/core-state/src/presence.ts:188-215 | of the records for one member and path a restore keeps the newest, and the later one of two of the same revision |
| Cache.ApplyAllNet | packages/core-state/src/sync.ts:370-433 | applying newer updates gives every slot their net effect and moves the cursor to the last revision |
| Cache.ApplyAllStale | packages/core-state/src/sync.ts:370-380 | updates that are not newer are ignored |
| Cache.AdditionFills | packages/core-state/src/sync.ts:370-416 | a newer addition fills exactly the slot of the intent it names, or the unnamed one, and moves the cursor |
| Cache.RemovalEmpties | packages/core-state/src/sync.ts:370-416 | a newer removal empties that slot, for an intent also the unnamed one, and every slot beside it if it names none; no other slot changes |
| Cache.ArrivalOrderDoesNotCount | packages/core-state/src/sync.ts:426-433 | a batch in any order of arrival is applied in the order of its revisions |
| Paths.NormalizeTwice | packages/core-state/src/path.ts:55-77 | normalisation is idempotent |
| Paths.NormalizeLaws | packages/core-state/src/path.ts:55-78 | on text: a named segment and the parent step after it cancel, empty segments and dots do not count, both separators mean the same |
| Paths.OnlyResolve | packages/core-state/src/path.ts:55-78 | no other function has these laws and leaves resolved lists alone, so they determine every normal form |
| Paths.PathsMatchIff | packages/core-state/src/path.ts:85-104 | case-sensitive hosts match paths with one normal form, the others those whose normal forms differ in letter case at most |
| Paths.Normalize | packages/core-state/src/path.ts:55-77 | the loop over segments computes the normal form |
| LockRegistries.ResolveByEarliestRevision | packages/core-state/src/conflict.ts:118-146 | the loop returns the winner and the flagged claims of the resolver function |
| LockRegistries.LockRegistry.Acquire | packages/core-state/src/locks.ts:190-243 | the object's new groups and answer are those of the acquisition that `AcquireKeeps` is about |
| LockRegistries.LockRegistry.Release | packages/core-state/src/locks.ts:253-320 | the same for release, with both of its errors |
| LockRegistries.LockRegistry.WinningLock | packages/core-state/src/locks.ts:327-341 | returns the group's unflagged claim |
| LockRegistries.LockRegistry.TransferPath | packages/core-state/src/locks.ts:353-409 | the same for the transfer of a claim, untouched when the member holds none |
| LockRegistries.LockRegistry.ReleaseOnDelete | packages/core-state/src/locks.ts:418-445 | the same for a deletion |
| LockRegistries.LockRegistry.Expire | packages/core-state/src/locks.ts:472-576 | removes and returns exactly what the expiry function does, group by group |
| LockRegistries.LockRegistry.Restore | packages/core-state/src/locks.ts:513-530 | regroups and re-resolves a snapshot's locks |
| IntentRegistries.IntentRegistry.Declare | packages/core-state/src/intents.ts:398-435 | stores the reclassified intent or rejects it unchanged |
| IntentRegistries.IntentRegistry.Update | packages/core-state/src/intents.ts:444-490 | owner-only replacement, with its errors |
| IntentRegistries.IntentRegistry.Withdraw | packages/core-state/src/intents.ts:498-509 | owner-only removal, with its errors |
| IntentRegistries.IntentRegistry.RenamePath | packages/core-state/src/intents.ts:777-835 | rewrites exactly the affected intents and returns them in order |
| IntentRegistries.IntentRegistry.DeletePathForMember | packages/core-state/src/intents.ts:845-880 | the same for a member's deletion |
| IntentRegistries.IntentRegistry.ExpireByDevice | packages/core-state/src/intents.ts:724-737 | removes and returns the device's intents in order |
| IntentRegistries.PresenceRegistry.StopActiveForDevice | packages/core-state/src/presence.ts:158-185 | stops the device's live records with consecutive revisions |
| HostParts.IngestGate.Admit | packages/core-state/src/ingest.ts:174-237 | checks, duplicates and replay in the gate's order; only an admitted event consumes a counter and a revision |
| HostParts.CoordinationEventLog.SyncFrom | packages/core-state/src/sync.ts:282-301 | the updates after a cursor, or a snapshot when the log was compacted past it |
| HostParts.SqliteStore.CommitMutation | apps/host/src/store.ts:359-405 | all five tables change together or none does |
| HostParts.SqliteStore.CommitExpiry | apps/host/src/store.ts:407-430 | audits, snapshot and watermark change together or not at all |
| HostParts.SqliteStore.DeviceCounters | apps/host/src/store.ts:498-508 | the highest persisted counter of every device |
| Authority.CoordinationAuthority.Ingest | apps/host/src/authority.ts:519-755 | memory, tables and reply after one event are those of `Host.Ingest`, and the host stays valid |
| Authority.CoordinationAuthority.ApplyAndCommit | apps/host/src/authority.ts:582-755 | the same for the part after admission |
| Authority.CoordinationAuthority.ApplyEvent | apps/host/src/authority.ts:764-1104 | registries, broadcasts, revisions, audits and conflict of `Registries.Apply`; a rejection changes nothing |
| Authority.CoordinationAuthority.ApplyRename | apps/host/src/authority.ts:1435-1547 | lock transitions of both scopes, then the moved intent paths, one revision each |
| Authority.CoordinationAuthority.ApplyDelete | apps/host/src/authority.ts:1553-1645 | the lock transition, then the dropped intent paths |
| Authority.CoordinationAuthority.SweepExpiry | apps/host/src/authority.ts:2160-2217 | memory, tables and broadcasts of a sweep are those of `Host.SweepExpiry` |
| Authority.CoordinationAuthority.FailClosed | apps/host/src/authority.ts:2253-2280 | the snapshot before the event is restored, the counter with it, and the flag is set |
| Authority.CoordinationAuthority.Recover | apps/host/src/authority.ts:2283-2317 | a new process over existing tables is in the recovered state |
| Authority.CoordinationAuthority.constructor | apps/host/src/authority.ts:256-320 | gate, counter, log and registries of a new process are those of `Host.Recovered` |
| Authority.CoordinationAuthority.CurrentLockConflict | apps/host/src/authority.ts:1818-1846 | the conflict a duplicate acknowledgement reports |
| Authority.Effects.EmitWinningLockTransition | apps/host/src/authority.ts:1765-1792 | the broadcasts of a winner change, each with the next revision |
| Authority.Effects.EmitIntentBroadcasts | apps/host/src/authority.ts:1848-1886 | one broadcast per path of the intent, in order, consecutive revisions |
| SyncCache.AgentSyncCache.ApplyUpdate | packages/core-state/src/sync.ts:370-416 | the cache after one update, including the clearing of unnamed intent slots |
| SyncCache.AgentSyncCache.ApplySnapshot | packages/core-state/src/sync.ts:444-451 | the cache is replaced by the snapshot's projection |
| SyncCache.AgentSyncCache.ApplySync | packages/core-state/src/sync.ts:459-466 | either form of a sync answer, and the staleness marker is cleared |
| LineDiff.DiffLines | apps/vscode-extension/src/local-diff-preview.ts:73-121 | table and walk together return the edit script that `ScriptIsMinimal` is about |
| LineDiff.FillTable | apps/vscode-extension/src/local-diff-preview.ts:79-95 | every cell of the filled table is the recurrence's value and fits 16 bits |
| LineDiff.CellIsMaximum | apps/vscode-extension/src/local-diff-preview.ts:79-95 | every cell is the maximum length over all common subsequences of its two suffixes |
| LineDiff.ScriptIsMinimal | apps/vscode-extension/src/local-diff-preview.ts:97-121 | the script's non-added lines are the old text, its non-removed lines the new one, and no such script changes fewer lines |
| LineDiff.UnchangedIff | apps/vscode-extension/src/local-diff-preview.ts:128-150 | no line is changed exactly when the texts have the same lines |
| LineDiff.LinesRoundTrip | apps/vscode-extension/src/local-diff-preview.ts:43-53 | splitting undoes terminating for each line terminator |
| LineDiff.BuildLocalDiffPreview | apps/vscode-extension/src/local-diff-preview.ts:128-185 | no preview exactly when nothing changed; at most 14 lines containing the first change; truncated exactly when a line is hidden |
| LineDiff.ComparedIff | apps/vscode-extension/src/local-diff-preview.ts:139-155 | texts are compared only if each has at most 24,000 characters and 240 lines |
| LineDiff.ShownIff | apps/vscode-extension/src/local-diff-preview.ts:159-173 | a line is shown exactly if it is in the first change block or at most two lines away, and among the first fourteen such lines |
| ServiceText.QuoteWindowsArgument | apps/cli/src/service.ts:387-412 | the one-pass loop computes the recursive quoting, and rejects exactly unsafe text |
| ServiceText.CommandLineReadsBack | apps/cli/src/service.ts:387-412 | splitting a quoted, joined command line by the CommandLineToArgvW rules returns the arguments |
| ServiceText.TaskArgumentsReadBack | apps/cli/src/service.ts:387-423 | the same through XML escaping and decoding; only the empty list is rejected |
| ServiceText.PassesArePerCharacter | apps/cli/src/service.ts:351-423 | several replace passes that do not touch each other's output equal one per-character pass |
| ServiceText.ExecStartReadsBack | apps/cli/src/service.ts:351-359 | a unit's ExecStart line is refused exactly if an argument is unsafe text, and otherwise reads back as its arguments |
| ServiceText.SystemdPathReadsBack | apps/cli/src/service.ts:369-381 | exactly the absolute safe paths are accepted, and they read back |
| ServicePlans.ApplyServicePlan | apps/cli/src/service.ts:902-1010 | the five loops run the plan's actions in the declared order |
| ServicePlans.RanInOrder | apps/cli/src/service.ts:902-1010 | what ran is a prefix of the plan: all of it on success, up to the reported failure otherwise |
| ServicePlans.StopsAtFirstFailure | apps/cli/src/service.ts:854-1010 | it stops at the first action that must not fail and at no other |
| ServicePlans.PlanOrder | apps/cli/src/service.ts:909-1008 | directories, files to write, the commands that precede removal, removals, the other commands: each list in its own order and nothing left out |
| ServicePlans.GoesOnIff | apps/cli/src/service.ts:932-998 | the plan goes on after an action exactly if it succeeded, a file that may be missing is, the command may fail, or on uninstall its service may be absent and is |
| ServicePlans.PlanReports | apps/cli/src/service.ts:906-1008 | the reported results are the exits of the commands that ran, the warnings the failures that the plan went on after, each in order |
| DependencyGraphs.MergeDependencyDelta | apps/host/src/authority.ts:1652-1721 | the copies and the file index, changed in place, compute the merge function |
| DependencyGraphs.MergeFoldsChanges | apps/host/src/authority.ts:1652-1721 | every edge is what folding the changes in order gives it; one module per file stays one, no module is empty, and edges that were once each and in their source's module stay so |
| DependencyGraphs.DeltasPlaceEdges | apps/host/src/authority.ts:1652-1738 | a graph made of deltas alone has one module per file and every edge once, in its source's module; its version counts the deltas |
| DependencyGraphs.LookupIsMembership | apps/host/src/authority.ts:1652-1721 | looking up keys finds exactly the edges of the graph |
| DependencyGraphs.LastOperationWins | apps/host/src/authority.ts:1666-1698 | whether an edge is there is decided by the last operation on its key |
| DependencyGraphs.MergeIsIdempotent | apps/host/src/authority.ts:1652-1721 | merging the same delta again changes no edge |
| DependencyGraphs.LastContractWins | apps/host/src/authority.ts:1700-1708 | the last change of an id decides its contract, an empty fingerprint removes it, and merging again changes no contract |
| DependencyGraphs.ModulesRepeatIff | apps/host/src/authority.ts:1666-1698 | merging again leaves the list of modules and the order of their edges if and only if in no file an edge that was removed comes back before a new one is added |
| DependencyGraphs.ContractsRepeatIff | apps/host/src/authority.ts:1700-1708 | the same for the list of contracts |
| DependencyGraphs.MergeRepeatsIff | apps/host/src/authority.ts:1652-1721 | merging again gives the same graph with the next version if and only if both conditions hold |
| DependencyGraphs.SecondMergeSwaps | apps/host/src/authority.ts:1666-1698 | from the empty graph, a delta that removes an edge, adds it and adds another one leaves them in this order, and merged again in the other |
| DependencyGraphs.DuplicateFileIsReached | apps/host/src/authority.ts:1116-1129 | with a file twice in an installed graph, a second merge of one removal removes another edge |
| KeyOrder.FoldRepeatsIff | apps/host/src/authority.ts:1666-1708 | lists edited by key: doing all edits again changes nothing if and only if no dropped key comes back before a new one is added |
| AgentReplay.HostConnection.Send | apps/agent/src/connection.ts:545-600 | the counter is persisted before the frame is sent, and a failed write sends nothing |
| AgentReplay.CounterFile.Save | apps/agent/src/cache.ts:223-235 | the stored counter never goes down |
| AgentReplay.CountersIncrease | apps/agent/src/connection.ts:557-600 | over any interleaving of sends, failed writes, socket failures, reconnections, crashes and restarts the counters on the wire strictly increase and never exceed the stored one |
| AgentReplay.EveryDeliveryIsAccepted | packages/security/src/replay.ts:67-105 | the host's guard accepts every frame that arrives in order, whatever was lost between |
| AgentReplay.AgentAndHost | apps/agent/src/connection.ts:557-600 | both ends together |
| AgentReplay.ProcessIff | apps/agent/src/connection.ts:545-556 | over every run there is a process exactly if it was started and has not crashed since, and it is connected exactly if a handshake completed in it and no close came after |
| AgentReplay.SendTells | apps/agent/src/connection.ts:545-600 | what one send does: connected and below the limit it uses the next counter unless a needed write failed, and the frame is on the wire if the socket takes it too |
| AgentReplay.NothingIsLost | apps/agent/src/connection.ts:545-600 | while writes succeed and the socket takes the frames, every send made while connected is on the wire, with the counters 1, 2, 3 and so on across closes, crashes and restarts |
| FolderScans.FolderWatcher.ScanOnce | apps/agent/src/watcher.ts:222-294 | the scan emits the specified events and keeps the new tree |
| FolderScans.ReplayGivesCurrent | apps/agent/src/watcher.ts:222-294 | replaying a scan's events over the old file set gives the new one |
| FolderScans.ReplayAllScans | apps/agent/src/watcher.ts:119-294 | replaying any sequence of scans over the primed set gives the last file set |
| FolderScans.EveryPathOnce | apps/agent/src/watcher.ts:222-294 | every vanished or new path is in exactly one event |
| FolderScans.ScanReportsIff | apps/agent/src/watcher.ts:222-304 | an event is reported if and only if the two trees call for it: a save for a changed size or time, a rename for a file whose valid inode is found only at a new path, otherwise a creation or a deletion |
| FolderScans.PairedIff | apps/agent/src/watcher.ts:244-304 | a rename pairs two paths exactly when both carry the same valid inode and no other vanished or new path does |
| FolderScans.PairingIsInjective | apps/agent/src/watcher.ts:244-294 | no two vanished paths are renamed to the same new one |
| EditorScopes.HostHoldsTheScopes | apps/agent/src/agent.ts:482-667 | in every online run replaying the sent messages gives exactly the claimed scopes |
| EditorScopes.HandleAccountsIff | apps/agent/src/agent.ts:482-667 | one step keeps this exactly unless an offline rename or deletion moved a claimed scope |
| EditorScopes.RunIsReported | apps/agent/src/agent.ts:634-667 | over every online run the rename and deletion messages are exactly one per accepted input, in order, whether or not a scope was claimed |
| EditorScopes.DeletionSends | apps/agent/src/agent.ts:661-667 | a deletion sends the release of a claimed scope and then the deletion, and of an unclaimed file the deletion alone |
| EditorScopes.RunSendsOnlyNeeded | apps/agent/src/agent.ts:579-632 | over every online run no lock message claims what is held or releases what is not |
| EditorScopes.OfflineIsSilent | apps/agent/src/agent.ts:482-667 | offline nothing is sent, and only the watcher's renames and deletions move scopes |
| EditorScopes.InputLeavesScopes | apps/agent/src/agent.ts:482-667 | which scopes every kind of online input leaves |
| EditorScopes.TrackerFollows | apps/vscode-extension/src/editor-host.ts:51-121 | the active path is the last one shown until it is closed, deleted or renamed, and the last cleared one is remembered while none is active |
| EditorScopes.ActionIsReported | apps/vscode-extension/src/vscode-adapter.ts:440-531 | an action makes the agent report exactly its own rename or deletion of accepted paths |
| EditorScopes.ActionFollowedIff | apps/vscode-extension/src/vscode-adapter.ts:440-531 | one published action keeps agent and tracker together if and only if it is `Faithful` |
| EditorScopes.ScopesFollowTheTracker | apps/vscode-extension/src/editor-host.ts:51-121 | over any run of such actions the scopes are exactly the active path or empty |
| EditorScopes.ReconnectRestores | apps/agent/src/agent.ts:567-576 | a snapshot event restores this from any scopes |
| EditorScopes.SnapshotHeals | apps/agent/src/agent.ts:567-576 | a snapshot followed by faithful actions ends with exactly the active path, whatever was missed |
| EditorScopes.RefusedRenameStrandsTheScope | apps/agent/src/agent.ts:542-547 | renaming the active file to a refused path leaves its scope claimed after the next tab switch |
| EditorScopes.AcceptedPathIff | apps/agent/src/agent.ts:68-92 | exactly the unrooted paths are accepted that resolve below the repository and outside excluded and control directories; the result is the normal form, its segments all proper names, none empty, `.` or `..` |
| EditorScopes.DriveMayRemain | apps/agent/src/agent.ts:72-79 | an accepted path starts with a drive if and only if the first segment it resolves to does |
| EditorScopes.DriveBehindDot | apps/agent/src/agent.ts:72-79 | such a path exists: a drive behind a leading `./` is accepted |
| EditorScopes.ActiveEditorScopes.HandleEditorEvent | apps/agent/src/agent.ts:482-558 | scopes and messages of the object are those of the step function |
| EditorScopes.ActiveEditorScopes.ReconcileActiveEditorSnapshot | apps/agent/src/agent.ts:567-576 | the loop retires every other scope, then claims the path |
| EditorScopes.ActiveEditorScopes.ForwardPathRename | apps/agent/src/agent.ts:634-658 | a claimed scope moves with the rename, and the message is sent online |
| EditorScopes.ActiveEditorPathTracker.SetActive | apps/vscode-extension/src/editor-host.ts:61-74 | the tracker's fields and transition |
| EditorScopes.ActiveEditorPathTracker.Rename | apps/vscode-extension/src/editor-host.ts:94-107 | the tracker's fields and transition |
| LocalApi.PipeReader.OnData | apps/agent/src/local-api.ts:231-247 | after any chunk, what was dispatched is the non-blank complete lines of everything received, and the rest is buffered |
| LocalApi.SplitIsUnique | apps/agent/src/local-api.ts:231-247 | a text splits into complete lines and a rest in one way only |
| LocalApi.EveryTextSplits | apps/agent/src/local-api.ts:231-247 | and every text does |
| LocalApi.FrameIff | apps/agent/src/local-api.ts:246-248 | a line is a frame unless it is all white space |
| LocalApi.FramesJoin | apps/agent/src/local-api.ts:231-247 | the frames of more lines are those of the parts |
| LocalApi.ConcatJoins | apps/agent/src/local-api.ts:231-247 | what was received is the chunks one after the other |
| JsText.TrimmedAwayIff | apps/agent/src/local-api.ts:246-248 | a line is dropped as blank exactly if it is all white space |
| JsText.TrimTakes | apps/host/src/demo-pairing.ts:90 | trimming takes all white space at both ends and nothing else |
| LocalApi.ReadChunks | apps/agent/src/local-api.ts:231-247 | the frames depend only on the concatenation of the chunks |
| LocalApi.EveryRegistrationIsDisposedOnce | apps/agent/src/local-api.ts:350-422 | in every interleaving an open connection holds at most one registration and has disposed of none; a closed one has disposed of each exactly once, in order |
| LocalApi.ClosedKeepsNothing | apps/agent/src/local-api.ts:365-374 | a registration answered after the close is never kept |
| LocalApi.FlightMoves | apps/agent/src/local-api.ts:351-385 | a registration starts waiting only for a frame that finds none live and none under way, is answered by the handler, and ends when it is cleared |
| LocalApi.EventsTell | apps/agent/src/local-api.ts:350-422 | over every series of events: closed exactly if the socket closed, registered exactly what the handler answered with, and an open connection holds the last answer |
| LocalApi.LocalApiClient.SubscribeClient | apps/agent/src/local-api.ts:351-385 | the handler is called only when nothing is registered or under way; a repeat gets the live registration's response |
| LocalApi.LocalApiClient.OnAnswer | apps/agent/src/local-api.ts:363-376 | keeps the registration, or disposes of it when the connection has closed |
| LocalApi.LocalApiClient.DisposeClient | apps/agent/src/local-api.ts:394-404 | closes once and disposes of the live registration |
| McpRequests.EachRequestSettlesOnce | apps/cli/src/mcp-bridge.ts:317-509 | in every run each issued id is pending with its timer set or settled exactly once; a failed or closed client has none pending |
| McpRequests.DoneStaysDone | apps/cli/src/mcp-bridge.ts:365-379 | a failed or closed client never issues another id |
| McpRequests.ResolvedByItsOwnResponse | apps/cli/src/mcp-bridge.ts:424-442 | a request resolves only with the body of a response frame carrying its own id |
| McpRequests.EachEventSettlesItsOwn | apps/cli/src/mcp-bridge.ts:381-473 | whatever else is pending, an answer, an error, a timer or a failed send settles exactly the pending request that it is about, with its own outcome; about no pending one it changes nothing |
| McpRequests.RequestIsIssued | apps/cli/src/mcp-bridge.ts:317-363 | a request of a usable client is pending under the next id with its timer set, or rejected at once if sending fails; any other is refused |
| McpRequests.FailureRejectsAll | apps/cli/src/mcp-bridge.ts:475-509 | a failure or a close rejects everything pending, in order and with its reason; the first error stays |
| McpRequests.OthersSettleNothing | apps/cli/src/mcp-bridge.ts:381-423 | authentication and updates settle no request |
| McpRequests.LocalApiWebSocketClient.SendRequest | apps/cli/src/mcp-bridge.ts:317-351 | issues a fresh id exactly when the client is usable; a failing send rejects it |
| McpRequests.LocalApiWebSocketClient.OnMessage | apps/cli/src/mcp-bridge.ts:381-473 | the effect of every kind of frame on the table |
| McpRequests.LocalApiWebSocketClient.Close | apps/cli/src/mcp-bridge.ts:267-279 | closes and rejects everything pending |
| SnapshotIntents.Snapshot | apps/agent/src/agent.ts:877-954 | one intent per key, flattening to exactly the entries' facts, sorted by the given comparison |
| SnapshotIntents.FlattenReturnsTheEntries | apps/agent/src/agent.ts:889-931 | an intent lists a path under a role exactly when some entry of its key says so |
| SnapshotIntents.GroupGathers | apps/agent/src/agent.ts:889-931 | each group has its entries' paths, the maximum revision and the newest entry's description |
| SnapshotIntents.LegacyIdReads | apps/agent/src/agent.ts:900-904 | the id made up for an older host's entry names its kind, its revision in decimal and its path |
| SnapshotIntents.LegacyIdsAgreeIff | apps/agent/src/agent.ts:900-904 | two such entries share an id exactly if they agree on all three |
| SnapshotIntents.TogetherIff | apps/agent/src/agent.ts:900-909 | two entries are gathered into one intent exactly if member and device agree and they name the same intent, or name none and agree on kind, revision and path; a named entry joins an unnamed one only under the id made up for it |
| SnapshotIntents.IntentTextReads | apps/agent/src/agent.ts:949-953 | among ids without NUL the sort key tells the three ids apart |
| DemoPairing.AtMostFiftyNine | apps/host/src/demo-pairing.ts:141-150 | with a non-decreasing clock an address gets at most 59 attempts through in any 60,000 ms interval |
| DemoPairing.FiftyNineCanPass | apps/host/src/demo-pairing.ts:141-150 | and 59 can pass |
| DemoPairing.EachCodeRedeemedOnce | apps/host/src/demo-pairing.ts:65-103 | over every run no issued code is redeemed twice or at or after its expiry |
| DemoPairing.JoinSucceedsIff | apps/host/src/demo-pairing.ts:89-103 | a join succeeds exactly for a code that was shown, is unredeemed and has not expired, and invites to its workspace |
| DemoPairing.AnswerSound | apps/host/src/demo-pairing.ts:65-103 | every request keeps live codes one-to-one with unredeemed, unexpired issues |
| DemoPairing.ConversationFollows | apps/host/src/demo-pairing.ts:65-103 | over every run each answer follows from the exchanges before it: a host is shown its first draw not in use, until its lifetime from now; a join is invited to the workspace of the exchange that showed its code, if that is live and nobody tried the code since |
| DemoPairing.DemoPairingEndpoint.AllowAttempt | apps/host/src/demo-pairing.ts:141-150 | the address's entry and the verdict of one attempt |
| DemoPairing.DemoPairingEndpoint.Host | apps/host/src/demo-pairing.ts:67-88 | prunes, draws a free code and stores it, or gives up after the draws |
| DemoPairing.DemoPairingEndpoint.Join | apps/host/src/demo-pairing.ts:89-103 | consumes the code before judging it |
| Porcelain.ParsePorcelain | apps/cli/src/git.ts:127-144 | the index loop computes the token-by-token parse |
| Porcelain.PrintedReadsBack | apps/cli/src/git.ts:127-144 | parsing a printed list of changes returns it |
| Porcelain.TrimmedReadsBackIff | apps/cli/src/git.ts:42-53 | through the trimming runner it comes back exactly when the first change is staged |
| Porcelain.FullyPrintedReadsBackIff | apps/cli/src/git.ts:127-144 | printed with the origins of second-column renames too, the list comes back if and only if none of those origins is longer than three characters |
| Porcelain.ShortOriginsMayHide | apps/cli/src/git.ts:127-144 | a short origin of a first-column rename can make up for a misread one |
| BrandMark.FloodFill | tools/prepare-brand-assets.py:84-98 | marks exactly the dark pixels that 4-neighbour dark paths reach from the seed, enqueues each at most once, and terminates |
| BrandMark.LimeBounds | tools/prepare-brand-assets.py:30-49 | rejects exactly an image without lime; otherwise the smallest box around all lime pixels, widened and clipped |
| BrandMark.AdjacentIff | tools/prepare-brand-assets.py:88-97 | the flood goes to the pixels that share an edge |
| BrandMark.ClampedHolds | tools/prepare-brand-assets.py:42-49 | the box holds the pixels of the image that are at most three away from the bounds of the lime ones |

## Left out

- Several sessions in one object: every registry, log and table here is that of one session; the program keys them by session.
- Messages, tasks, notifications, live diffs, Luna and wake requests: one payload `Other` that may be refused and may take further revisions, but changes no coordination entry.
- `dep.snapshot` and `dep.delta` are not wired into the host step; the merge is modelled on its own. `dep.snapshot` installs a graph as it is: nothing checks that it has one module per file, as the merge lemmas ask, or every edge once and in its place.
- Authentication, signatures, permissions and minimisation are boolean inputs of an event (`Checks`).
- The heartbeat clock: a sweep takes the stale devices and the soft-lock cutoff as inputs.
- In-progress markers of intents, conflicts returned by a declaration, creation claims and glob intents.
- Retention: the log is compacted only on recovery; a running host's log is not trimmed.
- Several clients: the run has one; each follows the same history independently.
- EventConvergence.ApplyCarriesIff: states without glob locks and events with non-empty ids only, because a glob scope has no cache slot of its own and an empty intent id means a missing one.
- ClientRuns.SyncedClientConverges: runs whose accepted events and sweeps meet their proved conditions and in which no update is lost to an overtaken answer or a connection that ends before it; where one fails, the lemmas named above say what goes wrong.
- ClientRuns.EventFollowedIff: one event after a run that was followed so far; what a later event may mend is not followed.
- Paths: letter case folds over ASCII only; Unicode folding is not part of this model. The convergence proofs use any lawful spelling.
- Projections for people: the team view, risk map, planned creations, display lines of the preview (a parameter).
- DependencyGraphs.MergeIsIdempotent: graphs with one module per file, which deltas keep; `DuplicateFileIsReached` says what a graph with a file twice does.
- Porcelain.FullyPrintedReadsBackIff: lists in which first-column origins are longer than three characters and no shorter second-column one starts with R or C; `ShortOriginsMayHide` says why.
- LineDiff.DiffLines: asks for fewer than 65,536 lines; its only caller refuses more than 240.
- ServicePlans.ApplyServicePlan: actions are abstract and the executor is a function of what ran before; file contents and command lines are not part of it. On Windows the status script queries a task name with a backslash while the install plan uses another form; the two are not compared.
- ServiceText.TaskArgumentsReadBack: the reading rules after the program name; the program path itself is a separate field of the Task Scheduler definition.
- AgentReplay.CountersIncrease: one device and one counter file; non-integral stored values are not modelled.
- FolderScans.FolderWatcher.ScanOnce: the tree walk is an input; directories that fail to read are whatever the walk returns.
- EditorScopes.HostHoldsTheScopes: lock messages only; presence reports, bounded activity timers and the coalescer are not modelled. A send is taken to succeed while online.
- EditorScopes.ActionFollowedIff: the exclusion list is a parameter; URI resolution is an input of the action.
- LocalApi.EveryRegistrationIsDisposedOnce: the server is given an unsubscribe handler; authentication frames and the response frames are not modelled.
- McpRequests.EachRequestSettlesOnce: ids are unbounded numbers; subscriptions, reconnection and update handlers are left out.
- SnapshotIntents.Snapshot: `localeCompare` is any total preorder of texts; the session's branch is dropped.
- DemoPairing.JoinSucceedsIff: the invitation is its workspace; signing, request validation and the HTTP layer are left out, and random draws are inputs.
- BrandMark.FloodFill: the search for the seed, resampling and composition; a pixel test is a predicate.
- The in-process stand-in host of the agent's unit tests, backoff, configuration and argument parsing, transports, cryptography and user interfaces.
