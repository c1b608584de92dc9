# Crash-safe transactions of the Aimili Gateway

The Gateway and its root helpers change things that live in several places at once: an
inbound in the panel's database, the live Xray process and a snapshot file; a program
binary, its previous copy and a systemd service; a list of installed files; a set of
accounts on the panel and in the Gateway's own store. Each of these is a protocol of small
durable steps that can be interrupted between any two of them, followed by recovery code
that must find out what really happened. This project models those protocols and proves
what they keep, for every schedule of failures and crashes.

## How it is laid out

* `Fates.dfy`: what can happen to one durable step (done, failed, failed after it took
  effect, process killed). A run is driven by a schedule of fates, so a statement for all
  schedules is a statement for a crash anywhere. `Wrappers.dfy`, `FiniteSets.dfy` and
  `Decimal.dfy` are small helpers.
* `PanelTemplate.dfy`, `TemplateContents.dfy`, `PanelDatabase.dfy`: the inbound rows, clients
  and flow overrides the protocol helper rewrites, as values; the templates of the three
  protocol modes; and the write, restore, comparison and boundary transactions with their
  loops.
* `HelperSteps.dfy`, `ProtocolHelper.dfy`: the helper as a write-ahead discipline over its
  durable steps, with the invariant of every run, and the class whose methods (apply,
  finalize, renew, rollback, recovery) are shown to follow it.
* `ProtocolSpool.dfy`, `SpoolRuns.dfy`: one cycle of the helper's service over the request
  directory, and that it is a run of the machine composed of Gateway and helper.
* `HelperView.dfy`: the helper as the Gateway sees it; every step of the helper is a move
  of this small machine.
* `ProtocolAgreement.dfy`, `ComposedAgreement.dfy`, `AgreementGuards.dfy`: Gateway and
  helper together, crashing independently and sharing only the spool; when they agree, and
  that each of the three guards this needs is exact.
* `GatewayRecord.dfy`, `ProtocolGateway.dfy`, `VersionedStore.dfy`: the durable record of
  the Gateway, the Gateway's own code for switch, rollback and recovery, and the
  compare-and-set under it.
* `GatewayUpdate.dfy`, `UpdateOutcome.dfy`, `UpdateProgress.dfy`, `ProjectUpdate.dfy`,
  `ProjectOutcome.dfy`: the two updaters. Each is a function of world and schedule, proved
  about, and a class whose methods have exactly that effect; what a published result is
  worth; and what an update ends in that nothing, or one step, disturbs.
* `MixedSaga.dfy`, `SagaOutcome.dfy`: the rotation of the SOCKS credentials and the change of
  the source policy, compensated in reverse, and when each succeeds.
* `CandidateReassignment.dfy`, `Allocation.dfy`, `SubscriptionAliases.dfy`,
  `OperationLocks.dfy`, `LockExclusion.dfy`: index updates under uniqueness, slots and ports,
  display names, lock order and what the locks keep apart.

`dafny verify dfyconfig.toml` checks everything.

## What turned out to be false

Some properties one would expect of this code hold only under a condition. The models keep
the code as it is; each entry names the lemma with the failing run and the lemma with the
exact condition.

* Gateway and helper can disagree on the mode of an idle inbound. A helper killed at its
  first snapshot answers the replay of the request with operation_conflict; the Gateway
  finds the old mode in place and may go on; recovery of the operation left behind later
  reverts a finalized switch (`AgreementGuards.BeginGuardCanBreak`,
  `PanelDatabase.LeftBehindUndoRevertsALaterSwitch`). A rollback killed between its restore
  and its tombstone leaves an operation that can still be finalized
  (`AgreementGuards.FinalizeGuardCanBreak`). A repair can accept the mode an abandoned
  apply is just making (`AgreementGuards.RepairGuardCanBreak`). The three lemmas named
  `...GuardIsExact` show that each guard is needed exactly, the first two for the operation
  the Gateway is waiting for, and `ComposedAgreement.AgreementAlwaysHolds` that together they
  suffice.
* An operation on an inbound with a client whose flow override is NULL cannot be undone
  (`PanelDatabase.NullFlowCannotBeUndone`, exact in `PanelDatabase.UndoIsExact`).
* Success published by the binary updater can stand over the old binary, in two ways: a
  restore that was not journaled before the result was published
  (`GatewayUpdate.StaleSuccess`, exact in `GatewayUpdate.RecoverIsSound`), and a restore
  after it was (`GatewayUpdate.RestoredAfterPublication`; from then on no update starts,
  `GatewayUpdate.DisagreementStays`). Over all sequences of activations it happens exactly
  if one of them takes a journaled success back (`UpdateOutcome.PublishedSuccessIsExact`).
* The project updater can leave success published over old files: an error after success was
  published (its publication reported as failed, or the journal not removed) starts a
  rollback, and a kill in that one leaves the result standing, which the next restart takes
  at its word (`ProjectUpdate.SuccessOverOldFiles`, exact in
  `ProjectUpdate.CommitPointIsExact`).
* A policy change can report that it was not applied with one group left new
  (`MixedSaga.LateUpdateOccurs`) or the record of one group left new
  (`MixedSaga.LateRecordOccurs`); both exact in `MixedSaga.PolicyIsAtomicUnlessLate`. A
  rotation can do so with a record (`MixedSaga.LateRotationRecordOccurs`) or the stored pair
  new (`MixedSaga.LatePairOccurs`); exact in `MixedSaga.RotationIsAtomic`.
* The coverage check of a subscription can pass although the main inbound is not among the
  inbounds it looks at (`SubscriptionAliases.WrongMainPasses`, exact in
  `SubscriptionAliases.CoverageCheck`).
* An operation that locks an id before it looks it up, and is given the key of a lock it
  already holds, waits for itself (`OperationLocks.ReservedIdWaitsForItself`, exact in
  `OperationLocks.ProperIsExact`).
* A group whose provisioning failed can stay in the table, under the reserved slot or the
  one that was made: exactly if its row could not be deleted again (`Allocation.Pool.Enable`;
  what is distinct stays distinct).

Candidate ids are unique per country and proxy type, not over the whole table; the model
follows the index.

## Model

| member | source | states |
|---|---|---|
| `PanelTemplate.BuiltRowReadsBack` | scripts/aimili_xui_protocol_transaction.py:696-723 | A row written from a template reads back as the mode that was asked for, in all three modes, and the inbound given to Xray is the one the panel generates from that row. |
| `PanelTemplate.UpdatesAreForMissing` | scripts/aimili_xui_protocol_transaction.py:804-814 | A Hysteria template plans credentials exactly for the listed clients that have none. |
| `PanelTemplate.RebuildIsStable` | scripts/aimili_xui_protocol_transaction.py:751-845 | Building the mode a row is already in, from the clients as a switch left them, gives the same columns again and plans no credential. |
| `PanelTemplate.SwitchOnceKeeps` | scripts/aimili_xui_protocol_transaction.py:730-749 | One switch keeps id, tag, port, listen, sniffing and Reality material, and stores the profile it used. |
| `PanelTemplate.SwitchSequenceKeepsIdentity` | scripts/aimili_xui_protocol_transaction.py:730-845 | Any sequence of successful switches keeps the identity of the inbound and its Reality material; a return to VLESS after Hysteria puts the original material back. |
| `PanelTemplate.NextSwitchRecordsTheLiveInbound` | scripts/aimili_xui_protocol_transaction.py:909-921 | After any switch, the inbound the next switch will record as the old one is the inbound the panel runs. |
| `PanelTemplate.CollectVless` | scripts/aimili_xui_protocol_transaction.py:773-782 | The loop over the clients of a VLESS template: all entries in order, or the first client without uuid or email stops it. |
| `PanelTemplate.CollectHysteria` | scripts/aimili_xui_protocol_transaction.py:802-814 | The loop over the clients of a Hysteria template: entries, and the credentials made up for clients without one. |
| `PanelTemplate.RunBuildTemplate` | scripts/aimili_xui_protocol_transaction.py:751-845 | The field-by-field construction yields the specified template or the specified error for every row, client list, profile and mode. |
| `TemplateContents.ClientsOfTemplate` | scripts/aimili_xui_protocol_transaction.py:755-814 | The client list of a built template, read key by key, has one entry for every enabled client, in order, none missing: its uuid under id, its email, and the flow exactly in Vision mode; or its own or newly planned credential under auth, and its email. |
| `TemplateContents.SettingsOfTemplate` | scripts/aimili_xui_protocol_transaction.py:784-844 | The stream of a built template carries the Reality material and, for XHTTP, the path of the profile; or the configured certificate and key, under the configured name or else the first of the profile. |
| `TemplateContents.IdentityOfTemplate` | scripts/aimili_xui_protocol_transaction.py:758-772 | Identity, sniffing and flags of a template are those of the row and of the mode. |
| `TemplateContents.BuildSucceedsExactly` | scripts/aimili_xui_protocol_transaction.py:751-845 | A template can be built exactly if there is an enabled client, sniffing is an object, and every enabled client has what the mode needs, in Hysteria mode also a name for TLS. |
| `PanelDatabase.AttachedUnique` | scripts/aimili_xui_protocol_transaction.py:628-641 | The ordered join query for the clients of an inbound has exactly one answer. |
| `PanelDatabase.UndoIsExact` | scripts/aimili_xui_protocol_transaction.py:998-1092 | From any database between the one the snapshot was taken of and the wanted one, a restore gives back the earlier database as a whole, exactly if no flow override was NULL; otherwise it reports snapshot_invalid. |
| `PanelDatabase.PersistLandsBetween` | scripts/aimili_xui_protocol_transaction.py:927-996 | Writing a fresh template succeeds, lands between the two ends, and leaves row and clients as the template describes them. |
| `PanelDatabase.PersistStaysBetween` | scripts/aimili_xui_protocol_transaction.py:927-996 | A write that succeeds on a database between the two ends stays between them and leaves every planned value. |
| `PanelDatabase.PersistThenRestore` | scripts/aimili_xui_protocol_transaction.py:927-1092 | Restore after persist is the identity on the whole database. |
| `PanelDatabase.NullFlowCannotBeUndone` | scripts/aimili_xui_protocol_transaction.py:1138-1150 | An attached client with a NULL flow override makes the written operation impossible to undo. |
| `PanelDatabase.WroteMeansPersisted` | scripts/aimili_xui_protocol_transaction.py:1202-1235 | Between the two ends, a database that passes the check of all planned values is the result of one write. |
| `PanelDatabase.RestoreFrame` | scripts/aimili_xui_protocol_transaction.py:998-1092 | A restore changes nothing outside the five columns of the target row, the flow overrides of its listed clients and the planned credentials. |
| `PanelDatabase.PersistFrame` | scripts/aimili_xui_protocol_transaction.py:927-996 | A write changes nothing outside the five columns of the target row, the flow overrides of its clients and credentials that were empty. |
| `PanelDatabase.RestoredMatches` | scripts/aimili_xui_protocol_transaction.py:1094-1136 | What a restore leaves passes the comparison with the snapshot. |
| `PanelDatabase.BoundaryDecidesRestore` | scripts/aimili_xui_protocol_transaction.py:1171-1200 | With the row in place, the boundary check passes exactly when the restore it guards would succeed. |
| `PanelDatabase.MatchingMeansBefore` | scripts/aimili_xui_protocol_transaction.py:1094-1136 | Between the two ends an operation always passes its boundary check, and the comparison with the snapshot recognises exactly the database before it. |
| `PanelDatabase.LeftBehindUndoRevertsALaterSwitch` | scripts/aimili_xui_protocol_transaction.py:1171-1200 | The boundary check does not look at the row: an operation left at its first snapshot passes it after a later switch with the same flow was written, and its undo puts the whole database back. |
| `PanelDatabase.RunPersist` | scripts/aimili_xui_protocol_transaction.py:927-996 | The transaction with its UPDATE loop computes the specified database, or the specified refusal with nothing changed. |
| `PanelDatabase.RunRestore` | scripts/aimili_xui_protocol_transaction.py:998-1092 | The restore transaction with its loop over clients computes the specified database or refusal. |
| `PanelDatabase.RunMatches` | scripts/aimili_xui_protocol_transaction.py:1094-1136 | The comparison loop decides exactly whether the database matches the snapshot. |
| `PanelDatabase.RunBoundary` | scripts/aimili_xui_protocol_transaction.py:1171-1200 | The boundary loop decides exactly whether client list, flows and planned credentials are the operation's own. |
| `PanelDatabase.RunVerify` | scripts/aimili_xui_protocol_transaction.py:1202-1235 | The verification loop succeeds exactly if every planned value is in the database. |
| `HelperSteps.StepKeepsInv` | scripts/aimili_xui_protocol_transaction.py:1255-1300 | Every step of the helper that follows the write-ahead discipline keeps the invariant of database, live inbounds and journal. |
| `HelperSteps.WriteAhead` | scripts/aimili_xui_protocol_transaction.py:1237-1388 | Over every run of such steps, cut off anywhere, the invariant holds. |
| `HelperSteps.IdleIsCommitted` | scripts/aimili_xui_protocol_transaction.py:1237-1388 | Whenever no operation is open, the whole database and all live inbounds are those the last finalized operation left. |
| `HelperSteps.UndoneLeavesNoTrace` | scripts/aimili_xui_protocol_transaction.py:1289-1300 | Operations that were all undone or forgotten leave database and live inbounds exactly as they were before the first of them. |
| `HelperSteps.FinalizeCommitsTemplate` | scripts/aimili_xui_protocol_transaction.py:1302-1317 | Finalizing an operation no undo has touched commits exactly its template: one write, one inbound replaced, and that inbound is the one generated from the row. |
| `HelperSteps.LiveInboundIsGenerated` | scripts/aimili_xui_protocol_transaction.py:909-921 | The live inbound stays the one the panel generates from the row, over any run of switches and undos that starts with it, begins on an idle helper and finalizes no operation an undo has touched; so every begin of such a run finds the inbound it records. |
| `HelperSteps.TombstonesAreFinal` | scripts/aimili_xui_protocol_transaction.py:1302-1354 | Finalized and rolled back exclude each other and stay for ever, over any further run. |
| `HelperSteps.SnapshotPhaseIsHarmless` | scripts/aimili_xui_protocol_transaction.py:1255-1256 | An operation that never got past its first snapshot has had no effect. |
| `HelperSteps.CleanIsUndoable` | scripts/aimili_xui_protocol_transaction.py:1356-1388 | In every clean run an open operation can be undone exactly if the flow overrides of its clients were set and no earlier undo has left its file behind. |
| `ProtocolHelper.PlanIsFresh` | scripts/aimili_xui_protocol_transaction.py:1252-1254 | What apply plans for a loaded target is a snapshot the discipline accepts. |
| `ProtocolHelper.ProtocolTransactionManager.Take` | scripts/aimili_xui_protocol_transaction.py:211-241 | One durable step with its fate: done, failed without effect, failed after it took effect, or never reached. |
| `ProtocolHelper.ProtocolTransactionManager.SmoothMeansNoTroubles` | scripts/aimili_xui_protocol_transaction.py:211-241 | The trouble the contracts below speak of is none exactly if every step was done. |
| `ProtocolHelper.ProtocolTransactionManager.ReplaceRuntime` | scripts/aimili_xui_protocol_transaction.py:1364-1377 | The recorded inbound is put back into Xray; a temporary file a killed rollback left behind makes it fail with unsafe_path before anything changes. |
| `ProtocolHelper.ProtocolTransactionManager.RestoreRows` | scripts/aimili_xui_protocol_transaction.py:1378-1379 | The database is restored unless it matches the snapshot already, and matches it afterwards. |
| `ProtocolHelper.ProtocolTransactionManager.RollbackSnapshot` | scripts/aimili_xui_protocol_transaction.py:1356-1388 | A failed boundary check stops an undo before it touches runtime or database; a success leaves the operation undone, or forgotten if asked, and an undo succeeds whenever nothing is in its way and every step is done; nothing else is touched. |
| `ProtocolHelper.ProtocolTransactionManager.Begin` | scripts/aimili_xui_protocol_transaction.py:1238-1256 | The request is validated against the row, which must still be in the old mode, before a finished operation is looked at; only a first snapshot is written, and undisturbed one is for every request that can be started. |
| `ProtocolHelper.ProtocolTransactionManager.CommitRows` | scripts/aimili_xui_protocol_transaction.py:1278-1285 | The rest of the try block answers success only with phase applied and every planned value in the database. |
| `ProtocolHelper.ProtocolTransactionManager.Compensate` | scripts/aimili_xui_protocol_transaction.py:1287-1300 | After a failed try block the original error is reported only if the operation is gone, rollback_failed otherwise; the operation only stays if it cannot be undone or the undo itself was disturbed. |
| `ProtocolHelper.ProtocolTransactionManager.Apply` | scripts/aimili_xui_protocol_transaction.py:1237-1300 | However it fails or is killed, apply follows the discipline; applied means every planned value is stored; begun on an idle helper, any error but rollback_failed leaves database and live inbounds as they were; a row already in the new mode is refused, even for a replay. Undisturbed, every request that can be started is applied, and it takes two failures to leave a fresh operation open. |
| `ProtocolHelper.ProtocolTransactionManager.Finalize` | scripts/aimili_xui_protocol_transaction.py:1302-1317 | Finalize answers finalized only with the tombstone in place, and always for an applied operation if undisturbed; it succeeds only on an applied or finalized operation, and changes no database or inbound. |
| `ProtocolHelper.ProtocolTransactionManager.Renew` | scripts/aimili_xui_protocol_transaction.py:1319-1326 | Renew succeeds only on an applied operation, and on it if undisturbed, and changes nothing else. |
| `ProtocolHelper.ProtocolTransactionManager.Rollback` | scripts/aimili_xui_protocol_transaction.py:1328-1354 | Rollback reports operation_finalized exactly for finalized operations and operation_not_applied exactly for unknown ones; a rolled back operation leaves database and inbounds as last committed; undisturbed, every operation that can be undone is rolled back. |
| `ProtocolHelper.ProtocolTransactionManager.RecoverOne` | scripts/aimili_xui_protocol_transaction.py:1411-1416 | One turn of recovery undoes and forgets the operation; it marks it for repair only if something is in the way of the undo or a step was not done. |
| `ProtocolHelper.ProtocolTransactionManager.RecoverPending` | scripts/aimili_xui_protocol_transaction.py:1390-1417 | After recovery only young operations and those marked for repair are open, settled ones are untouched, and an idle helper is where the last finalized operation left it. Undisturbed, the interrupted operation is gone exactly if it could be undone, with its rows and its live inbound put back. |
| `ProtocolSpool.OneOperationInOrder` | scripts/aimili_xui_protocol_transaction.py:289-289 | In the order of file names the requests of one operation come as apply, finalize, renew, rollback, whatever its id. |
| `ProtocolSpool.ProtocolSpool.First` | scripts/aimili_xui_protocol_transaction.py:289-289 | The next request is the least of the remaining file names. |
| `ProtocolSpool.ProtocolSpool.Dispatch` | scripts/aimili_xui_protocol_transaction.py:298-344 | Nothing begins, ends or is forgotten but what the request is about, and every answer is true of the disk when it is given: applied, finalized, rolled back, already finalized, and not applied. Undisturbed, a request that can be started is applied, an applied operation finalized, one that can be undone rolled back. |
| `ProtocolSpool.ProtocolSpool.ProcessOne` | scripts/aimili_xui_protocol_transaction.py:289-352 | A request is answered before it is removed, the answer is true when it is given, and older answers that name an end stay true. |
| `ProtocolSpool.ProtocolSpool.ProcessSpool` | scripts/aimili_xui_protocol_transaction.py:281-353 | After a whole pass every listed request is answered and gone, finalized and rolled back are never both answered, and no finalize of an applied operation was overtaken by its rollback, even if its apply is replayed in the same pass; the pass, cut off anywhere, is a run of the composed machine. |
| `ProtocolSpool.ProtocolSpool.ProcessSpoolCycle` | scripts/aimili_xui_protocol_transaction.py:356-361 | Recovery comes only after every listed request was answered and removed; the whole cycle, cut off anywhere, is a run of the composed machine, unless an operation was begun on a helper that was not idle. |
| `SpoolRuns.StepIsPrompted` | scripts/aimili_xui_protocol_transaction.py:289-361 | Every durable step of a call the spool or recovery has led to is a move the composed machine allows the helper there, with exactly its effect, or is not seen by the Gateway. |
| `SpoolRuns.GatewayLeavesServing` | internal/protocoltxn/client.go:203-234 | Whatever the Gateway does between two such steps, the next one is still allowed. |
| `SpoolRuns.RequestIsServed` | scripts/aimili_xui_protocol_transaction.py:1238-1256 | What a request leads to is allowed: in particular an apply that begins an operation was never answered as applied before. |
| `SpoolRuns.RequestIsRun` | scripts/aimili_xui_protocol_transaction.py:289-352 | The steps of a call, its answer and the removal of its request, as far as they came, are a run of the composed machine that ends in the view of disk and spool. |
| `SpoolRuns.RecoveryIsRun` | scripts/aimili_xui_protocol_transaction.py:356-361 | Recovery after an emptied spool is such a run as well. |
| `SpoolRuns.FreshIsLinked` | scripts/aimili_xui_protocol_transaction.py:1237-1256 | A fresh installation is the initial state of the composed machine. |
| `SpoolRuns.GatewayKeepsLinked` | internal/protocoltxn/client.go:138-234 | The Gateway, publishing and saving between the calls of the helper, keeps disk, spool and machine in step. |
| `HelperView.StepIsMove` | scripts/aimili_xui_protocol_transaction.py:1237-1388 | Every durable step of the helper is the move of the small machine it is seen as, enabled there and with exactly its effect, or invisible. |
| `HelperView.RunIsMoveRun` | scripts/aimili_xui_protocol_transaction.py:1237-1388 | Every run of the helper is a run of the small machine that ends in the view of the disk. |
| `ProtocolAgreement.MoveKeepsSound` | internal/orchestrator/protocolmode.go:53-240 | Every move of either process keeps what the spool says true, the record sound, and the session entitled to what it will do. |
| `ProtocolAgreement.RunKeepsSound` | internal/orchestrator/protocolmode.go:53-240 | The same for every state of every run from a fresh installation, without any guard. |
| `ProtocolAgreement.SettledStays` | scripts/aimili_xui_protocol_transaction.py:1328-1354 | An operation that is not finalized and can no longer be stays so under every step of the helper. |
| `ComposedAgreement.StepLeavesNoDanger` | scripts/aimili_xui_protocol_transaction.py:1302-1317 | No step of the helper leaves a waiting finalize that it would carry out. |
| `ComposedAgreement.NothingWaits` | internal/orchestrator/protocolmode.go:790-843 | When the Gateway calls an operation off or done, no finalize is waiting and the mode it records is the committed one. |
| `ComposedAgreement.RepairIsRight` | internal/orchestrator/protocolmode.go:246-294 | A repair that passes its check, while no open operation has the row's mode as its target, has found the committed mode. |
| `ComposedAgreement.MoveKeepsTight` | internal/orchestrator/protocolmode.go:53-240 | Every guarded move of either process keeps helper, spool and record in agreement. |
| `ComposedAgreement.AgreementAlwaysHolds` | internal/orchestrator/protocolmode.go:53-240 | Composed agreement: in every state of every guarded run, with both processes crashing anywhere, a ready record and no open operation mean that the row is in the active mode. |
| `AgreementGuards.BeginGuardIsExact` | scripts/aimili_xui_protocol_transaction.py:1237-1256 | Beginning an operation is safe for all continuations exactly if no other operation is open. |
| `AgreementGuards.FinalizeGuardIsExact` | scripts/aimili_xui_protocol_transaction.py:1302-1317 | Finalizing is safe for all continuations exactly if the row is in the new mode. |
| `AgreementGuards.RepairGuardIsExact` | internal/orchestrator/protocolmode.go:246-294 | Accepting a repair is safe for all continuations exactly if no open operation has the row's mode as its target. |
| `AgreementGuards.BeginGuardCanBreak` | scripts/aimili_xui_protocol_transaction.py:1239-1244 | From a fresh installation a guarded run leads to an apply that begins while another operation is open: a kill at the first snapshot, a conflict on replay, and a Gateway that finds the old mode. |
| `AgreementGuards.FinalizeGuardCanBreak` | scripts/aimili_xui_protocol_transaction.py:1349-1353 | From a fresh installation a guarded run leads to a finalize of an operation whose restore was cut off before it was recorded. |
| `AgreementGuards.RepairGuardCanBreak` | internal/orchestrator/protocolmode.go:246-294 | From a fresh installation a guarded run leads to a repair that sees the target of an apply that was called off and carried out late. |
| `GatewayRecord.EveryChangeIsAnEdge` | internal/domain/protocolmode.go:52-84 | Every stored change of state is an edge of Transition or no change, although the mark functions assign the state directly and saves may fail late. |
| `GatewayRecord.ReadyNewIffFinalized` | internal/orchestrator/protocolmode.go:504-566 | A switch in flight becomes ready in the new mode exactly if the helper had finalized it, and in the old mode exactly if it never can. |
| `GatewayRecord.FingerprintAlwaysMatches` | internal/orchestrator/protocolmode.go:529-540 | Whenever the helper reports the operation as finalized, the stored record reproduces the fingerprint it was issued under, so the check never trips. |
| `GatewayRecord.RecordIsEarned` | internal/orchestrator/protocolmode.go:634-648 | In every state of every run a ready or broken record has active equal to desired, one in flight names its request, and the active mode is the installed one or one the helper finalized. |
| `VersionedStore.Store.Update` | internal/store/protocolmodes.go:90-114 | An update succeeds exactly if the version is the expected one and the database does not fail; the version counts up whenever it took effect. |
| `VersionedStore.StaleForGood` | internal/orchestrator/protocolmode.go:857-865 | Once a save was committed without the writer learning of it, no later save of that writer changes the row. |
| `VersionedStore.NeverMoreThanOneBehind` | internal/store/proxygroups.go:163-198 | A writer that started from the current version is never more than one save behind. |
| `ProtocolGateway.Orchestrator.Persist` | internal/orchestrator/protocolmode.go:857-865 | A save stores exactly the intended record or nothing, and reports success only if it was stored. |
| `ProtocolGateway.Orchestrator.Publish` | internal/protocoltxn/client.go:203-234 | A request is in the spool when publishing succeeded, and perhaps when it failed. |
| `ProtocolGateway.Orchestrator.Await` | internal/protocoltxn/client.go:138-174 | Waiting ends with an answer that is in the spool for exactly this request, or with a timeout; trouble is counted exactly if none came or not one that was hoped for. |
| `ProtocolGateway.Orchestrator.SettleOld` | internal/orchestrator/protocolmode.go:568-632 | From a rolling back record to a ready one in the old mode, or one that asks for repair unless a save failed. |
| `ProtocolGateway.Orchestrator.RollBackSwitch` | internal/orchestrator/protocolmode.go:790-843 | A failed switch ends settled in the old mode unless the process dies or a save fails; a rollback that nothing disturbs ends ready in the old mode and reports the cause. |
| `ProtocolGateway.Orchestrator.CarryOut` | internal/orchestrator/protocolmode.go:120-239 | A switch succeeds exactly if nothing disturbs it: with a ready record in the desired mode and an operation the helper finalized. After a single trouble, without a failed save, a switch of a group is back in the old mode, ready. |
| `ProtocolGateway.Orchestrator.Establish` | internal/orchestrator/protocolmode.go:120-206 | Apply, the pending record and the check of the new mode go through exactly if nothing disturbs them; a failed save that made the version in memory stale is told apart. |
| `ProtocolGateway.Orchestrator.SwitchProtocolMode` | internal/orchestrator/protocolmode.go:53-240 | A whole switch: undisturbed, and prepared, it succeeds from every record that is not in flight; success is a ready record in the target mode, finalized by the helper if the mode changed; a record in flight is refused untouched; otherwise the record ends settled unless the process dies or a save fails. |
| `ProtocolGateway.Orchestrator.RevalidateRepair` | internal/orchestrator/protocolmode.go:246-294 | A repair only ever unlocks the record in the mode it names, and reports storage_failed only after its checks passed. |
| `ProtocolGateway.Orchestrator.RecoverEgress` | internal/orchestrator/protocolmode.go:464-566 | Recovery of one egress after a crash anywhere ends ready, exactly on success, or asking for repair, unless the process dies or a save fails. It succeeds exactly if nothing disturbs it, and then a record in flight is ready in the new mode if the helper reported the operation as finalized, in the old mode if it reported it as rolled back or not applied. |
| `ProtocolGateway.RecoverProtocolModes` | internal/orchestrator/protocolmode.go:451-502 | The walk over all egresses goes past repairs that remain and stops at the first other error, with its answer; each egress it came to is recovered as if alone, the others are not touched. |
| `ProtocolGateway.WalkedMeans` | internal/orchestrator/protocolmode.go:451-502 | The walk succeeds only with every record ready, and whenever nothing disturbs it; unless a turn was cut off or had a save fail, it succeeds exactly with every record ready and leaves nothing in flight that it came to. |
| `GatewayUpdate.RestoreMeans` | internal/gatewayupdate/installer.go:234-275 | A restore, cut off anywhere, leaves the binary as it was or equal to the previous copy; rolled back means the previous image is in place, running and proven. |
| `GatewayUpdate.SwitchIsSound` | internal/gatewayupdate/recovery.go:13-70 | Success of a switch is the new binary running and proven with the old one as previous copy; rolled back is the old one, or for a rollback without error code the swapped pair; a crash anywhere leaves a world recovery understands. |
| `UpdateProgress.SmoothSwitchSucceeds` | internal/gatewayupdate/recovery.go:13-70 | An undisturbed request ends with its image in place, running and proven, the old one as previous copy, its result published and no journal. |
| `UpdateProgress.OneFailureIsRestored` | internal/gatewayupdate/installer.go:234-275 | If the stop, the rename, the start or the check is the only step that fails, the old binary is back, running and proven, rolled back is published, and no journal is left. |
| `UpdateProgress.TornCheckpointIsLeftToRecovery` | internal/gatewayupdate/recovery.go:72-78 | If a checkpoint is the only step that fails, nothing is published and the journal stays for recovery. |
| `UpdateProgress.OtherFailuresAreReported` | internal/gatewayupdate/recovery.go:13-37 | A single failure before the journal is reported as failed; one between journal and stop, or of the last journal write, as a need for repair. |
| `GatewayUpdate.RecoverIsSound` | internal/gatewayupdate/recovery.go:102-159 | Recovery never meets an unknown binary, and an unknown previous copy only if it cannot be read; what it reports is running and proven; success means the new binary exactly unless success was journaled and the binary restored since. |
| `UpdateProgress.SmoothRecoverySettles` | internal/gatewayupdate/recovery.go:151-167 | Whatever was cut off before, one undisturbed activation settles the run: an update whose new binary is in place is acknowledged, everything else is rolled back, the service runs and was proven, the result is published and the journal cleared, unless a different result had been published. |
| `UpdateProgress.UnhealthyRecoveryRestores` | internal/gatewayupdate/recovery.go:147-150 | A recovery that only finds the service unhealthy puts the old binary back, running and proven, and reports rolled back. |
| `GatewayUpdate.StaleComesFromALostWrite` | internal/gatewayupdate/recovery.go:161-167 | Such a stale journal only comes from a recovery that died, or could not write its journal, after success had been journaled. |
| `GatewayUpdate.StaleSuccess` | internal/gatewayupdate/recovery.go:155-158 | A run that publishes success with the old binary in place: the case in which the outcome is not sound does occur. |
| `GatewayUpdate.RestoredAfterPublication` | cmd/aimili-gateway-update-install/spool.go:68-71 | The other way to it: killed between the published success and the clearing of the journal, the run is recovered once more, the service is unhealthy, and the old binary is restored under the published success. |
| `GatewayUpdate.DisagreementStays` | cmd/aimili-gateway-update-install/spool.go:135-142 | Once journal and published result disagree, no activation for any request ever clears the journal or publishes anything. |
| `UpdateOutcome.TakesBackIsExact` | internal/gatewayupdate/recovery.go:141-158 | From the new binary with success journaled, an activation ends with the old one exactly if the service cannot be started or is unhealthy and the restore gets as far as the copy; the schedule alone decides. |
| `UpdateOutcome.RecoveryIsTrue` | cmd/aimili-gateway-update-install/spool.go:68-71 | One activation that finds a journal keeps the published result true of the files, and publishes an end only for a service that runs and was proven. |
| `UpdateOutcome.EntryIsTrue` | cmd/aimili-gateway-update-install/spool.go:75-106 | So does one that finds none and carries out its request. |
| `UpdateOutcome.PublishedSuccessIsExact` | cmd/aimili-gateway-update-install/spool.go:64-142 | Over all sequences of activations: whenever one is done with a run, success published for it means the old binary as previous copy, and the new one in place exactly unless some activation took the success back after it was journaled; rolled back means the old binary for every update. |
| `GatewayUpdate.RepairAbsorbs` | internal/gatewayupdate/recovery.go:117-119 | Once a journal asks for repair, no activation for any request changes it, the binary, its previous copy or the service. |
| `GatewayUpdate.AlwaysCrashproof` | cmd/aimili-gateway-update-install/spool.go:98-154 | The crash invariant on binary, previous copy, service and journal holds after any number of activations, each cut off or failing anywhere. |
| `GatewayUpdate.TwoRollbacksRestore` | internal/gatewayupdate/installer.go:128-152 | Two rollbacks that each go through restore the original pair of binary and previous copy. |
| `GatewayUpdate.Updater.RollbackAfterFailure` | internal/gatewayupdate/installer.go:234-275 | The steps of the restore have exactly the specified effect and outcome under every schedule of failures. |
| `GatewayUpdate.Updater.SwitchAfterStop` | internal/gatewayupdate/recovery.go:44-65 | From the stopped service on: the rename with a checkpoint on either side, then the rest, have exactly the specified effect and outcome. |
| `GatewayUpdate.Updater.StartAndVerify` | internal/gatewayupdate/recovery.go:53-69 | Start and verify with a checkpoint after each have exactly the specified effect and outcome; a failure of either goes into the restore. |
| `GatewayUpdate.Updater.PersistRecovered` | internal/gatewayupdate/recovery.go:161-167 | The terminal journal write turns its own failure into a request for repair. |
| `GatewayUpdate.Updater.RunSwitchRelease` | internal/gatewayupdate/recovery.go:13-70 | switchRelease with its deferred journal write has exactly the specified effect and outcome. |
| `GatewayUpdate.Updater.RunRecover` | internal/gatewayupdate/recovery.go:102-167 | Recover has exactly the specified effect and outcome. |
| `GatewayUpdate.Updater.RunEnter` | internal/gatewayupdate/installer.go:104-152 | Install and Rollback recover first and switch only without a journal. |
| `GatewayUpdate.Updater.FinishRequest` | cmd/aimili-gateway-update-install/spool.go:119-165 | Publication before clearing, stopped by a different published result, has exactly the specified effect. |
| `GatewayUpdate.Updater.RunInstaller` | cmd/aimili-gateway-update-install/spool.go:64-106 | One activation, journal first, has exactly the specified effect. |
| `ProjectUpdate.RestoreMeans` | deploy/vps/project_update.py:524-527 | A restore loop, cut off anywhere, touches only its targets; carried through, it has put every one back, present or absent. |
| `ProjectUpdate.RollbackRestoresAll` | deploy/vps/project_update.py:522-536 | A rollback that goes through leaves every file as it was before the update, from whatever state. |
| `ProjectUpdate.ReplaceMeans` | deploy/vps/project_update.py:566-573 | A replacement, cut off anywhere, touches only targets; carried through, every one of them but the version file is new. |
| `ProjectUpdate.TryLeaves` | deploy/vps/project_update.py:552-580 | However the try block of apply is left, journal, memory and published result tell how far it got. |
| `ProjectUpdate.MainKeeps` | deploy/vps/project_update.py:647-687 | One activation keeps the invariant that journal and published result are true of every file, unless it regrets a published success. |
| `ProjectUpdate.AllOrNothing` | deploy/vps/project_update.py:522-687 | All or nothing over any number of files and restarts: success means every target new, rolled back and failed mean every file byte-equal to what it was, anything else asks for repair. |
| `ProjectUpdate.SmoothRestartSettles` | deploy/vps/project_update.py:655-668 | One undisturbed restart settles any interrupted request. |
| `ProjectUpdate.CommitPointIsExact` | deploy/vps/project_update.py:579-590 | The published result is true of the files however the except block goes exactly if no success had been published when the error occurred. |
| `ProjectUpdate.RegretOccurs` | deploy/vps/project_update.py:579-590 | Such an error does occur: an update in which only the removal of the journal fails. |
| `ProjectUpdate.SuccessOverOldFiles` | deploy/vps/project_update.py:579-590 | All or nothing fails without its hypothesis: that update, killed in the rollback that follows, and one undisturbed restart leave success published, no journal, and every file old. |
| `ProjectOutcome.SuccessNeedsEveryStep` | deploy/vps/project_update.py:552-580 | Success is published only by an update that did every step before it: every file replaced, the services started, their health and the identities checked, the version recorded. |
| `ProjectOutcome.RolledBackNeedsEveryStep` | deploy/vps/project_update.py:655-667 | A restart publishes rolled back only after every step of the undo was done, start and health checks included. |
| `ProjectOutcome.HandleNeedsEveryStep` | deploy/vps/project_update.py:581-590 | The same of the except block, which never publishes success. |
| `ProjectOutcome.SmoothUpdateSucceeds` | deploy/vps/project_update.py:539-580 | An undisturbed update makes every file new, publishes success and leaves no journal. |
| `ProjectOutcome.OneFailureIsRolledBack` | deploy/vps/project_update.py:552-590 | If a single step fails once services are to be stopped, be it the start, the health check or the removal of the journal, every file is put back, rolled back is published, and no journal is left. |
| `ProjectOutcome.FailedUndoAsksForRepair` | deploy/vps/project_update.py:662-668 | If a single step of the undo fails in a restart, repair is asked for and the journal stays. |
| `ProjectOutcome.FailedBeginIsReported` | deploy/vps/project_update.py:680-686 | A single failure before that touches no file and is reported as failed, or as a need for repair if the journal had been written. |
| `ProjectOutcome.CurrentVersionSucceeds` | deploy/vps/project_update.py:616-619 | A request for the version that is there succeeds without touching a file. |
| `ProjectUpdate.ProjectUpdater.InstallFiles` | deploy/vps/project_update.py:567-567 | The copy loop has exactly the specified effect, wherever it stops. |
| `ProjectUpdate.ProjectUpdater.RestoreFiles` | deploy/vps/project_update.py:524-527 | The restore loop has exactly the specified effect, wherever it stops. |
| `ProjectUpdate.ProjectUpdater.Backup` | deploy/vps/project_update.py:556-563 | The backup loop records one entry for every target, in order, with its content or its absence. |
| `ProjectUpdate.ProjectUpdater.Try` | deploy/vps/project_update.py:552-580 | The try block has exactly the specified effect, outcome and journal in memory. |
| `ProjectUpdate.ProjectUpdater.RunApply` | deploy/vps/project_update.py:539-590 | apply with its except block has exactly the specified effect and outcome. |
| `ProjectUpdate.ProjectUpdater.RunMain` | deploy/vps/project_update.py:647-687 | One activation has exactly the specified effect. |
| `MixedSaga.UpdateMeans` | internal/orchestrator/mixedpolicy.go:91-102 | Groups before the end of the forward loop are new, those after it untouched, the one it stopped at new exactly if its call took effect. |
| `MixedSaga.RevertMeans` | internal/orchestrator/mixedpolicy.go:161-166 | A compensation whose every call was done has put every listed group back, and no other. |
| `MixedSaga.Compensated` | internal/orchestrator/mixedpolicy.go:154-179 | A compensation that goes through has put back the first groups and the first records, the latter two versions up, and touched nothing else. |
| `MixedSaga.SaveMeans` | internal/orchestrator/mixedpolicy.go:134-146 | Saved records carry the new fields one version up, the rest are untouched. |
| `MixedSaga.RestoreFailsOnlyByCalls` | internal/orchestrator/mixedpolicy.go:167-174 | The version arithmetic of the restore is right: every restore finds the version it expects, so it fails only if a call fails. |
| `MixedSaga.RestoreMeans` | internal/orchestrator/mixedpolicy.go:167-174 | When no restore fails, every record has its listed fields again, two versions up. |
| `MixedSaga.RotationIsAtomic` | internal/orchestrator/mixedpolicy.go:91-179 | The rotation succeeds only with every group, the main inbound and the stored pair new; when it reports not applied, every inbound is old, and records and pair are exactly if no store call with something new to store failed late. |
| `MixedSaga.PolicyIsAtomicUnlessLate` | internal/orchestrator/mixedpolicy.go:325-432 | A policy change succeeds only with everything new; when it reports not applied, the row and the main inbound are old, all groups are exactly if no failed update had taken effect, and all records exactly if no failed save had; after a failed first write nothing else was touched, and the row is old exactly if the write had no effect. |
| `SagaOutcome.RotationSucceedsExactly` | internal/orchestrator/mixedpolicy.go:91-152 | The rotation succeeds if and only if every call it makes is done: the update of each group, the main inbound if there is one, the validations, the save of each record, the pair. |
| `SagaOutcome.PolicySucceedsExactly` | internal/orchestrator/mixedpolicy.go:325-385 | A policy change succeeds if and only if every call it makes is done: the first write, update and validation of each group, main and its validation, each save, the last write. |
| `SagaOutcome.CompensationIsExact` | internal/orchestrator/mixedpolicy.go:161-174 | A compensation goes through exactly if each of its calls is done. |
| `SagaOutcome.RollbackReportsExactly` | internal/orchestrator/mixedpolicy.go:154-179 | A failed rotation is reported as not applied exactly if every call of its compensation is done, and asks for repair otherwise. |
| `SagaOutcome.FailPolicyReportsExactly` | internal/orchestrator/mixedpolicy.go:387-432 | A failed policy change exactly if, besides, the old policy is stored. |
| `SagaOutcome.OneFailureUndoesRotation` | internal/orchestrator/mixedpolicy.go:91-179 | If a single call of a rotation fails, in whatever way, it is compensated and reported as not applied. |
| `SagaOutcome.OneFailureUndoesPolicy` | internal/orchestrator/mixedpolicy.go:325-432 | The same of a policy change; a failed first write is reported as a failure of the store. |
| `MixedSaga.LateUpdateOccurs` | internal/orchestrator/mixedpolicy.go:325-385 | A policy change reported as not applied that leaves a group new. |
| `MixedSaga.LateRecordOccurs` | internal/orchestrator/mixedpolicy.go:325-385 | A policy change reported as not applied that leaves the record of a group new, with every inbound old. |
| `MixedSaga.LateRotationRecordOccurs` | internal/orchestrator/mixedpolicy.go:134-152 | A rotation reported as not applied that leaves the record of a group new. |
| `MixedSaga.LatePairOccurs` | internal/orchestrator/mixedpolicy.go:147-152 | A rotation reported as not applied that leaves the stored pair new, with the old one in force. |
| `MixedSaga.Orchestrator.ApplyToGroups` | internal/orchestrator/mixedpolicy.go:91-102 | The forward loop has exactly the specified effect and progress. |
| `MixedSaga.Orchestrator.RevertAllGroups` | internal/orchestrator/mixedpolicy.go:161-166 | The reverse compensation loop has exactly the specified effect and goes on after failures. |
| `MixedSaga.Orchestrator.SaveRecords` | internal/orchestrator/mixedpolicy.go:134-146 | The save loop has exactly the specified effect and progress. |
| `MixedSaga.Orchestrator.RestoreRecords` | internal/orchestrator/mixedpolicy.go:167-174 | The reverse restore loop has exactly the specified effect. |
| `MixedSaga.Orchestrator.Compensate` | internal/orchestrator/mixedpolicy.go:154-179 | The two compensation loops one after the other have exactly the specified effect. |
| `MixedSaga.Orchestrator.RotateMixedCredentials` | internal/orchestrator/mixedpolicy.go:91-152 | The rotation has exactly the specified effect and outcome under every schedule of failures. |
| `MixedSaga.Orchestrator.SetMixedPolicy` | internal/orchestrator/mixedpolicy.go:325-385 | The policy change has exactly the specified effect and outcome under every schedule of failures. |
| `CandidateReassignment.TemporaryNamesDiffer` | internal/store/proxygroups.go:83-83 | Temporary names of different attempts differ. |
| `CandidateReassignment.FreshName` | internal/store/proxygroups.go:81-94 | The search for a fresh name ends, after at most as many attempts as there are names taken, with one nobody has or will get. |
| `CandidateReassignment.Store.Validate` | internal/store/proxygroups.go:62-73 | The checks before the transaction accept exactly the well formed injective assignments. |
| `CandidateReassignment.Store.Stage` | internal/store/proxygroups.go:80-103 | After the first loop every assigned row has a fresh name and the index holds throughout. |
| `CandidateReassignment.Store.Finish` | internal/store/proxygroups.go:104-116 | The second loop succeeds exactly if no row outside the assignment is in the way, and leaves the promised table. |
| `CandidateReassignment.FreeUnlessOutsider` | internal/store/proxygroups.go:104-116 | Only a row outside the assignment can be in the way of the second loop. |
| `CandidateReassignment.Store.ReassignProxyGroupCandidates` | internal/store/proxygroups.go:58-121 | The reassignment commits exactly if it is well formed, injective, of existing groups, and in nobody's way; then all candidates move at once, otherwise nothing changes. |
| `CandidateReassignment.PermutationKeepsCandidates` | internal/store/proxygroups.go:104-116 | A permutation of the candidates of all groups leaves the set of candidates as it was, every group in its bucket, and every version one up. |
| `CandidateReassignment.BuildAssignments` | internal/orchestrator/reconcile.go:137-156 | The assignment is complete exactly if every group sits on a usable slot and no two on the same candidate. |
| `CandidateReassignment.DriftedMeans` | internal/orchestrator/reconcile.go:153-155 | Drifted are exactly the groups whose slot has moved on to another candidate. |
| `CandidateReassignment.CompleteIsInjective` | internal/orchestrator/reconcile.go:137-156 | A complete assignment is injective and of trimmed candidates. |
| `CandidateReassignment.CompleteAssignmentCommits` | internal/orchestrator/reconcile.go:157-168 | The total assignment reconciliation builds always meets the conditions of the store when ids and candidates are well formed. |
| `SubscriptionAliases.CoverageIsPermutation` | internal/orchestrator/subscription.go:56-60 | No slot twice and every number below the count present is the statement that the slots are a permutation. |
| `SubscriptionAliases.SlotAliasesDiffer` | internal/orchestrator/subscription.go:54-54 | Names that are equal are of the same slot and the same country. |
| `SubscriptionAliases.SlotAliasReadsBack` | internal/orchestrator/subscription.go:54-54 | The name of a slot reads back as its number, counted from one, and its country. |
| `SubscriptionAliases.NamesAreDistinct` | internal/orchestrator/subscription.go:37-62 | Names that are given out are for n+1 inbounds, and no name occurs twice. |
| `SubscriptionAliases.Collect` | internal/orchestrator/subscription.go:44-55 | The loop over the groups collects names and slots, and what it refuses could never be accepted. |
| `SubscriptionAliases.Aliases` | internal/orchestrator/subscription.go:37-62 | Names are given out exactly if main and groups are well formed, no inbound occurs twice, and the slots are 0 to n-1 once each. |
| `SubscriptionAliases.CoverageCheck` | internal/orchestrator/subscription.go:142-158 | The coverage check passes exactly if the inbound reported as main has a name, and then covers all named inbounds exactly if it is the recorded main inbound. |
| `SubscriptionAliases.WrongMainPasses` | internal/orchestrator/subscription.go:142-158 | A panel that reports the inbound of a group as the main one: names are given out, the check passes, and the main inbound is not among those checked. |
| `Allocation.ReserveSlot` | internal/orchestrator/orchestrator.go:522-543 | The reserved slot is the least number no group and no slot has, never more than their count, found with or without a limit; refused exactly if every number below the limit is taken. |
| `Allocation.FirstFree` | internal/orchestrator/orchestrator.go:940-951 | The search returns the least free port of the range, or zero exactly if the range is full. |
| `Allocation.AllocatePorts` | internal/orchestrator/orchestrator.go:932-953 | The pair is the least free pair, or exhaustion is reported exactly if a range is full. |
| `Allocation.FewGroupsLeavePorts` | internal/orchestrator/orchestrator.go:932-953 | Ports never run out while there are fewer groups than ports in either range. |
| `Allocation.Pool.Enable` | internal/orchestrator/orchestrator.go:371-425 | Enabling succeeds exactly if there is room, the id is new, every step goes well and no group has the slot that was made; it then adds one group with the least free ports and that slot. A failure changes nothing, or leaves the row with the same ports under the reserved or the made slot, exactly if it could not be deleted again; ids, slots and ports stay distinct in either case, also across the two kinds of port. |
| `Allocation.Pool.Provision` | internal/orchestrator/orchestrator.go:462-520 | From the inserted row on: success, exactly if every step goes well and the slot is free, is the row with the slot that was made; otherwise the row stays exactly if its deletion was not reached or had no effect. |
| `Allocation.Pool.RollbackSlotProvision` | internal/orchestrator/orchestrator.go:1108-1131 | The original error is reported only if everything elsewhere was removed and the row deleted; a row that stays is marked under the made slot, or keeps the one it had. |
| `Allocation.Pool.Adopt` | internal/orchestrator/orchestrator.go:427-460 | Adopting a slot that is there and unowned does the same; a row that stays keeps that slot. |
| `Allocation.Pool.Disable` | internal/orchestrator/orchestrator.go:717-744 | The numbers of a group are free again exactly if its row was deleted, which is only tried after it was marked and everything elsewhere was removed; the rest stays distinct. |
| `OperationLocks.FittingIsOrdered` | internal/orchestrator/locks.go:15-21 | A nested call whose keys only rise yields a lock trace in order that ends with nothing held; calls that carry the mutation context never lock it again. |
| `OperationLocks.OperationFits` | internal/orchestrator/orchestrator.go:316-369 | An operation keeps to the order mutation, activation, then all or a group id, exactly if no id it locks is a reserved key that comes before. |
| `OperationLocks.StepKeepsConsistent` | internal/orchestrator/locks.go:23-36 | The taken mutexes are always exactly those the operations hold, each by one of them. |
| `OperationLocks.SomeThreadCanStep` | internal/orchestrator/locks.go:23-36 | While an operation is unfinished, some operation can go on. |
| `OperationLocks.NeverDeadlocked` | internal/orchestrator/locks.go:15-36 | Deadlock freedom and mutual exclusion for any number of operations under any schedule. |
| `OperationLocks.ReservedIdWaitsForItself` | internal/orchestrator/orchestrator.go:634-639 | Every operation that locks an id before it looks it up, and is given a reserved key that comes before, has a run in which it waits for itself for ever. |
| `OperationLocks.ProperIsExact` | internal/orchestrator/locks.go:15-36 | The condition on ids is exact for every operation: it holds if and only if no run of the operation alone ends with it waiting for itself. |
| `LockExclusion.MutationsExclude` | internal/orchestrator/locks.go:15-21 | No two operations that change something are ever under way at the same time, for any number of operations and under any schedule. |
| `LockExclusion.KeysExclude` | internal/orchestrator/locks.go:23-36 | Two operations with the same key, a check and a rotation of one group for instance, are never inside at the same time. |
| `LockExclusion.HoldsMutation` | internal/orchestrator/locks.go:15-21 | From its first event to its last an operation that changes something holds the mutation lock. |
| `OperationLocks.Locks.Lock` | internal/orchestrator/locks.go:23-36 | A free key makes its caller the owner, a taken one makes it wait with nothing changed; the mutex is created the first time, and no other key is touched. |
| `OperationLocks.Locks.LockMutation` | internal/orchestrator/locks.go:15-21 | The mutation lock is taken exactly if the context does not carry it and it is free; with a context that carries it, the call passes at once. |

## Left out

* Xray, systemd, the panel's HTTP interface, probes and validators are oracles that may
  succeed, fail, or fail after they took effect; the check of a protocol mode reads the
  current row.
* Digests, signatures and encryption: digests and fingerprints are injective and kept as
  what they are computed from.
* JSON and SQL text, file permissions, owner and symlink checks, directory fsync: a file
  replacement and an SQL transaction are single steps, and a column that stores a document
  is the document.
* Real time: the age limit of recovery is the set of young operations; renewals of leases
  happen at any time or not at all, and are not moves of the composed machine, for they
  change nothing it can see.
* The ownership checks of the helper on remark, outbound and routing are one flag.
* The offline test configuration of Xray is consulted as an oracle and not composed.
* Liveness out of repair_required: the functions that mark a record for repair overwrite
  the desired mode, so a finalized switch recorded that way may stay there.
* Other egresses and other inbounds in the composed machine: it has one of each, as the
  Gateway's mutation lock serialises switches. The walk of recovery over all egresses gives
  each of them a machine of its own.
* The main egress record that is updated beside the protocol record of the main inbound.
* The helper's separate command that recovers without reading the spool first.
* The Windows variant of file replacement.
* The UI release updater, which repeats the shape of the binary updater.
* Downloading, signature checks, version comparison and the updater's own bootstrap; dry runs,
  which publish a result and switch nothing; the pruning of old results.
* Write-ahead side files of the databases and the egress state directory in a project
  rollback; what the restarted services themselves write into restored databases.
* A crash in the middle of a saga: neither saga keeps a journal.
* Account synchronisation, login limits, sessions, HTTP handlers, menus and installers.

Statements that are weaker than they might be, and why:

- `ProtocolHelper.ProtocolTransactionManager.RecoverPending`: what becomes of an operation is said of the only one recovery has to look at; in a run in which no operation begins while another is open there is never a second.
- `ProtocolHelper.ProtocolTransactionManager.RollbackSnapshot`: removing the operation directory is one step that is done or not, although the program deletes file by file.
- `AgreementGuards.FinalizeGuardIsExact`: for the recorded operation while the Gateway waits for its finalize; the guard is asked of every finalize, and for one carried out later it is shown to suffice, not to be needed.
- `AgreementGuards.BeginGuardIsExact`: for the recorded operation while the Gateway waits for its apply, as above; and exact for the composed machine, in which an undo always passes its boundary check; the program's own check lets it through when the flow override of both operations is the same and no credential was planned, as `PanelDatabase.LeftBehindUndoRevertsALaterSwitch` shows.
- `ComposedAgreement.AgreementAlwaysHolds`: the guards are hypotheses on the run, because the program does not check them.
- `GatewayRecord.FingerprintAlwaysMatches`: the egress keeps its inbound; id, tag and port of the inbound are left out of the fingerprint, so a mapping that changed in between is not represented.
- `ProtocolSpool.ProtocolSpool.ProcessSpoolCycle`: a run of the composed machine as long as no operation begins while another is open, which is the guard of a begin; the Gateway moves between the cycles here, and between their steps in `SpoolRuns.GatewayLeavesServing`.
- `ProjectUpdate.AllOrNothing`: the runs in which an error occurs after success was published are excluded, as `ProjectUpdate.CommitPointIsExact` and `ProjectUpdate.SuccessOverOldFiles` show they must be.
- `MixedSaga.RotationIsAtomic`: the validations of all groups and of the main inbound are one call.
- `CandidateReassignment.Store.ReassignProxyGroupCandidates`: rows are taken in any order, where the program sorts their ids; the result does not depend on it.
- `OperationLocks.OperationFits`: the nesting of each operation is written down from its method, with every inner call it may make.
