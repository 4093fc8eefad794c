# Cordum: audit chain, pack overlays, config splicing and config reload

A Dafny model of the parts of Cordum whose correctness spans many steps, and proofs about it.

* **Audit log** (`core/audit`). `Chain.dfy` is the append protocol as a state machine: any number of
  processes, each with a one-slot head cache and per-tenant locks, any number of concurrent `Append`
  calls, one Redis whose append script is a single step, retention trims, head deletions, failing
  calls and cancellations, interleaved in every way. `Chainer.dfy` is the retry loop, taking steps
  of that machine. `ChainVerify.dfy` is the checker; the `Verify*.dfy` files and `TamperEvidence.dfy`
  say what its report means. `Consumer.dfy` is the NATS consumer with redeliveries, `Buffer.dfy` and `BufferedExporter.dfy` the batching queue, `Export.dfy` the paged
  export.
* **Packs** (`cmd/cordumctl/pack.go`). `MergePatch.dfy`, `MergePaths.dfy`, `Canonical.dfy` and
  `CanonicalWriter.dfy` are JSON merge patch and canonical JSON; `PackStore.dfy`, `PackInstall.dfy` and `PackInstaller.dfy` the
  install with its rollback against a gateway whose every call may fail; `PackRecords.dfy` and
  `RegistryStore.dfy` the registry document through which an install hands its record to the uninstall;
  `PackUninstall.dfy` and `PackUninstaller.dfy` the removal with delete patches; `ConfigPatch.dfy` and
  `PackNamespaces.dfy` which config names an overlay may touch and does; `PackOutcome.dfy` what a
  finished install leaves at the gateway; `PackRegistry.dfy` and `PackHistory.dfy` the checks that keep namespaces apart over every history.
* **Codex config** (`cmd/cordumctl/mcp_adapter_codex.go`). `Codex.dfy`, `CodexAdapter.dfy`,
  `CodexKept.dfy` and `CodexReader.dfy`: section offsets, splice and append on text, what stays around
  the section, and reading the section back.
* **Config reload** (`cmd/cordum-scheduler/config_overlay.go`). `Routing.dfy`, `ConfigWatch.dfy` and
  `ConfigWatcher.dfy`: notifications through a channel of capacity one, polls, digests and routing.

Conventions. SHA-256 and HMAC are constructors applied to what is hashed, so collisions do not exist
by construction. Stream IDs are pairs, int64 arithmetic wraps where the source's does. JSON objects
are maps; a Go map's iteration order is an arbitrary choice in the loops that model it. Text is a
sequence of characters. What the environment decides (other processes, failing calls, cancellation,
arrivals, select choices, the order of deliveries) is a parameter, so a contract covers every schedule.
Code that updates fields in loops is a class or a method with a loop, proved against a function; code
that computes a value is a function.

Where a promise does not hold of the code as written, the code is modelled as it is, an example shows
the failure and an if-and-only-if says when the promise holds:

* seqs reported as missing (`TopPairReportsMissing`; `MissingExact`);
* the predecessor of a stream ID (`XRevBeforeIsPredecessor`);
* the first link of a window, which is not checked behind an entry that does not decode
  (`UndecodablePredecessorIsSkipped`; `WindowStartMeans`);
* Seq, which is not a hashed field (`SeqIsNotAttested`; `SeqsAgreeExactly`);
* the verification attached to an export (`MalformedEntryShiftsVerification`; `AttestationCap`);
* the empty chain fields of an event that is exported after a failed append
  (core/audit/consumer.go:269), which are not empty when the event could not be encoded or the script
  failed (`RunKeepsFields`);
* a rollback, for overlays without a name and topics that were registered before
  (`UnnamedOverlaySurvives`, `EarlierRegistrationIsLost`; `RollbackOutcome`);
* an uninstall, for the same overlays and for leaves that were there before (`NoTraceExactly`,
  `KeyHasNoTrace`, `UninstallRestores`);
* namespaces in config documents, for overlays that give a section as null (`NullTopicsAreRemoved`;
  `OutsideExactly`, `ForeignNamesKept`);
* packs whose IDs differ in surrounding spaces (`UntrimmedIdsCollide`; `PacksStaySeparate`);
* comments between the gateway's Codex section and the next header, which the adapter's own
  documentation says are left in place (`CommentIsDropped`; `CommentsKept`);
* strings in the gateway's Codex section, which are quoted as Go strings and read as TOML strings
  (`BellIsUnreadable`; `MergedReadsBack`);
* pools removed from the config document (`RemovedPoolsStayRouted`; `RoutingIsLastUsable`,
  `UnusablePoolsKeepRouting`).

## Model

| member | source | states |
|---|---|---|
| `ChainCommits.StreamsStayLinked` | core/audit/chain.go:265-352 | After every interleaving of every process, trim and head deletion, each tenant's surviving stream has consecutive seqs, every digest recomputes, every PrevHash is the predecessor's EventHash, and stream IDs increase. |
| `ChainSafety.RunKeepsInv` | core/audit/chain.go:245-352 | In every reachable state each tenant's stream is the tail of one chain that starts at seq 1, and a head that is present names the chain's last event. |
| `ChainCommits.CommitIsAtomic` | core/audit/chain.go:245-257 | A commit happens in the script step only: the head was the expected one, a missing head met an empty stream, the stream grew by exactly the caller's event and the head names it. |
| `ChainCommits.NoCommitNoGrowth` | core/audit/chain.go:245-257 | A step that commits nothing leaves a suffix of each stream, so nothing is appended outside a commit. |
| `ChainCommits.AppendReturns` | core/audit/chain.go:323-337 | A call that returned Ok committed exactly once, a failed script at most once, any other error never; what it committed is the event its caller holds, at the end of a valid chain. |
| `ChainRetry.RetryBound` | core/audit/chain.go:278-351 | Without deletion of the tenant's head a call has lost at most one attempt to its cache plus one per foreign commit during the call; giving up means at least 1023 foreign commits during it. |
| `ChainHeads.UnparsableMeansWrapped` | core/audit/chain.go:380-402 | In every reachable state an attempt fails to parse the head it reads, cached or stored, if and only if that head carries a negative seq, so the protocol never leaves a head it cannot read before its seq wraps. |
| `ChainHeads.CachedHeadsWereHeads` | core/audit/chain.go:177-202 | In every reachable state a cached head, however stale, is one that a commit of that tenant left behind. |
| `ChainHeads.GivingUpClearsTheEvent` | core/audit/chain.go:338-348 | In every reachable state a call between a lost attempt and its next read, and one that gave up, leaves its event without Seq, PrevHash, EventHash and HMAC. |
| `ChainHeads.RunKeepsFields` | core/audit/chain.go:278-351 | In every run, an event that came without chain fields has none exactly before its head is read, after a lost attempt and on every error except a failed encoding and a failed script; on those two, and on success, they are filled however the event came. |
| `ChainerLoop.System.Append` | core/audit/chain.go:265-352 | The retry loop, for every schedule of the others and every fault, takes only steps of the protocol; its result is the call's, Ok means exactly one commit of the returned event, giving up means 1023 foreign commits, only a cancelled context ends in a cancellation, and the chain fields of the returned event are empty or filled as the result says. |
| `ChainerLoop.System.Attempt` | core/audit/chain.go:278-349 | One attempt, on the caller's own copy of the event, keeps it equal to the protocol's; it returns, or comes back to the loop head with the attempt counter one higher and below 1024. |
| `ChainerLoop.FillChainFields` | core/audit/chain.go:294-318 | Setting PrevHash, Seq, EventHash and HMAC one after the other yields the event the protocol prepares from that head, and stops where it does. |
| `ChainVerify.VerifyChain` | core/audit/chain_verify.go:141-312 | The loops over entries and local counters compute the report that the recursive walk defines, for every stream, window, limit and key. |
| `ChainVerify.CheckOrder` | core/audit/chain_verify.go:231-268 | The retention prefix and the missing and out-of-order gaps of one event, and the status they leave. |
| `VerifyAccounting.VerdictAccounting` | core/audit/chain_verify.go:216-312 | On every stream: compromised exactly when some gap is not a retention gap, ok only without gaps, verified entries plus hash gaps are the entries read, and with a key verified plus skipped plus HMAC gaps are the events read. |
| `VerifyAccounting.ReportRange` | core/audit/chain_verify.go:216-312 | The report carries the seqs of the first entry and of the last decoded one, and says whether any HMAC was seen. |
| `VerifyGaps.WindowReads` | core/audit/chain_verify.go:141-165 | On an ordered stream a walk reads one stretch that holds the entries between the two times, all of them or the first as the limit says, which is 10000 unless given and at most 100000. |
| `VerifyGaps.GapsNameTheirEntries` | core/audit/chain_verify.go:231-300 | On every stream a hash, HMAC or order gap is reported at a seq if and only if some entry of the window carries that seq and fails that check against the last decoded event before it. |
| `VerifyGaps.CountersExactly` | core/audit/chain_verify.go:216-312 | On every stream each counter of the report is a number of entries of the window: those that decode, those whose hash recomputes and links and, with a key, those whose HMAC recomputes and those without one. |
| `VerifyAccounting.MissingExact` | core/audit/chain_verify.go:257-266 | The missing gaps list exactly the seqs skipped by forward jumps, in order, if and only if no two neighbours both carry the largest int64. |
| `VerifyAccounting.TopPairReportsMissing` | core/audit/chain_verify.go:257-266 | Two neighbours with the largest int64 skip nothing and are reported as missing. |
| `VerifyAccounting.IntactMeans` | core/audit/chain_verify.go:183-312 | Ok on a non-empty window if and only if the lookup before it gave no reason for doubt, every entry decodes and recomputes, neighbours link with seq steps of 0 or 1 (HMACs included when a key is given), the first entry links to the one found by the lookup if that decodes, and an unwindowed walk starts at seq 1 or below. |
| `VerifyTheorems.UniqueHistory` | core/audit/chain.go:410-421 | Two windows that are not compromised and end in the same EventHash agree backwards, entry by entry over the shorter length, on EventHash, PrevHash and every field of the event body. |
| `AuditEvent.HashPins` | core/audit/chain.go:410-450 | Two events whose EventHash recomputes have the same one if and only if they agree on PrevHash and on every field but Seq, EventHash and HMAC. |
| `AuditEvent.TagPins` | core/audit/chain.go:428-469 | The same for HMACs, which also pin the key. |
| `TamperEvidence.AlterationIsNoticed` | core/audit/chain_verify.go:269-283 | In a window that is not compromised, changing the body or PrevHash of an entry makes the walk compromised if another entry follows in the window, if its EventHash is kept or, with a key, if its HMAC is. |
| `TamperEvidence.LastEntryExactly` | core/audit/chain_verify.go:269-300 | A change of the last entry that keeps Seq and PrevHash goes unnoticed if and only if its EventHash and, with a key, its HMAC recompute. |
| `VerifyTheorems.SeqIsNotAttested` | core/audit/chain.go:410-414 | Two streams that differ in a Seq alone both verify as ok with the same EventHash. |
| `VerifyTheorems.SeqsAgreeExactly` | core/audit/chain_verify.go:257-266 | For two such windows, which agree on body and PrevHash, the Seqs at a distance from the end agree if and only if the last Seqs differ by the difference in repeated Seqs on the way; without repeats, exactly when the last Seqs agree. |
| `VerifyTheorems.CheckerCompleteness` | core/audit/chain_verify.go:216-312 | For every log the protocol can build, trimmed by k entries, an unwindowed walk verifies every entry it reads and is ok for k = 0, else partial with exactly min(k, 1000) retention gaps numbered from 1. |
| `VerifyWindows.XRevBeforeIsPredecessor` | core/audit/chain_verify.go:322-344 | The result is the greatest stream ID strictly below the argument if and only if both parts fit an int64 and the argument is not 0-0. |
| `VerifyWindows.BootstrapReadsPredecessor` | core/audit/chain_verify.go:188-215 | The lookup before a windowed walk returns the entry right before the window's first one, or none at the start of the stream. |
| `VerifyWindows.WindowStartMeans` | core/audit/chain_verify.go:183-215 | A window that starts at an entry is ok if and only if it is clean and its first entry follows the one before it, whose hash recomputes; but behind a failing lookup or an entry that does not decode the first link is not looked at. |
| `VerifyWindows.UndecodablePredecessorIsSkipped` | core/audit/chain_verify.go:183-215 | Behind an entry that does not decode, a one-event window is ok whatever PrevHash the event claims. |
| `VerifyWindows.WindowGluing` | core/audit/chain_verify.go:188-312 | Two adjacent unlimited non-empty windows report together the same counts and the same gaps as one walk over their union, and are compromised together exactly when the union is, if the first ends in an entry whose hash recomputes. |
| `Export.WalkChainStream` | core/audit/export_compliance.go:698-758 | The paged walk ends, and its callback saw exactly the first maxEvents well-formed entries in bounds, in order and once each, whatever the page size; a failed walk, which needs a fault, a failing row or a bound before 1970, saw a prefix of them. |
| `Export.ResumeAfter` | core/audit/export_compliance.go:753-755 | Resuming strictly behind the last entry of a page continues the range right after it. |
| `Export.WriteExport` | core/audit/export_compliance.go:338-416 | The rows are the matching events among those scanned, the count is their number, and an export that is not marked truncated scanned every well-formed entry in bounds (marked exactly when there are at least maxEvents); a failing verification or manifest line writes no row, any other failure a prefix, and only a fault, a failing row or a bound before 1970 makes it fail. |
| `Export.FilteredExactly` | core/audit/export_compliance.go:376-400 | Adding an event anywhere adds its row at that place exactly if it matches. |
| `Export.EventsExactly` | core/audit/export_compliance.go:725-750 | Adding an entry anywhere adds its event at that place exactly if it decodes. |
| `Export.VerifiedWindow` | core/audit/export_compliance.go:347-358 | The attached verification reads the entries in bounds from the oldest on, up to its own cap; an upper bound of 1970 exactly counts as none. |
| `Export.AttestationCap` | core/audit/export_compliance.go:347-358 | On every stream the attached verification covers every scanned event if and only if they are no more than the well-formed ones among the first entries in bounds, as many as the verification reads. |
| `Export.AttestationCapWellFormed` | core/audit/export_compliance.go:347-358 | Without malformed entries in bounds: if and only if at most 100000 events were scanned. |
| `Export.MalformedEntryShiftsVerification` | core/audit/export_compliance.go:347-358 | One malformed entry is enough to leave the only exported event unverified. |
| `Consumer.NATSAuditConsumer.Handle` | core/audit/consumer.go:209-296 | How a delivery ends follows from the packet, the append and the export: in strict mode only the event of a successful append is exported, a refused one is dropped, a step hash is written back exactly for a chained event of a job, and an event exported after a failed append has the chain fields that append left. |
| `Consumer.NATSAuditConsumer.Consume` | core/audit/consumer.go:209-296 | Over any sequence of deliveries: a message is left unacked only for a failed export or a lock that is never free, every other audit message is exported, refused in strict mode, oversized or malformed; the exports are the exported deliveries in order; in strict mode each exported event is an entry of its tenant's valid chain, and a message has one commit per delivery that reached the exporter plus at most one per delivery whose script failed. |
| `Consumer.CommitsCounted` | core/audit/consumer.go:201-208 | The count of commits per message, for every run of the chain: redelivery after a failed export appends again. |
| `Consumer.BackedIsAttested` | core/audit/consumer.go:247-283 | An event left by a successful append was committed exactly once, with the same Seq and digests, at the end of a valid chain of its tenant, in every later state. |
| `Buffer.BufferConservation` | core/audit/buffer.go:122-288 | In every reachable state the accepted events are, in order, all batches handed over, the current batch and the queue; batches are non-empty and within the batch size; each settled batch was delivered, dropped after exactly the maximal number of failures and counted, or abandoned in the drain; once the loop has stopped nothing is queued or in flight. |
| `Buffer.HandedOverExactly` | core/audit/buffer.go:205-241 | In every reachable state a batch is handed over exactly when an event fills it up or a tick or the end of the drain finds one begun, and it is that batch. |
| `BufferLoop.BufferedExporter.SendEvent` | core/audit/buffer.go:122-138 | An event is taken exactly when the queue is open and not full, and then at its end. |
| `BufferLoop.BufferedExporter.ExportWithRetry` | core/audit/buffer.go:250-288 | The retry loop settles the batch in flight by protocol steps, leaves the current batch alone and continues where the flush was called. |
| `BufferLoop.BufferedExporter.DrainQueuedEvents` | core/audit/buffer.go:225-241 | After the drain the loop has stopped and neither queue nor batch holds anything. |
| `BufferLoop.BufferedExporter.Loop` | core/audit/buffer.go:185-223 | For every order of arrivals, ticks and closing, a loop that returned has handed over everything it accepted, in order. |
| `MergePatch.MergePatch` | cmd/cordumctl/pack.go:1957-1983 | The loop over the patch's members computes the MergePatch function of section 2 of RFC 7396, whatever order they come in. |
| `MergePatch.MergeIdempotent` | cmd/cordumctl/pack.go:1957-1983 | Merging a patch a second time changes nothing. |
| `MergePatch.MergeFrame` | cmd/cordumctl/pack.go:1957-1983 | The value at every path that diverges from the patch is untouched. |
| `MergePatch.MergeDecides` | cmd/cordumctl/pack.go:1957-1983 | The leaf at every other path does not depend on the target. |
| `MergePatch.MergePuts` | cmd/cordumctl/pack.go:1957-1983 | There it is the patch's own leaf, none if that is null, and the result has an object exactly where the patch has one. |
| `MergePaths.MergeExactly` | cmd/cordumctl/pack.go:1957-1983 | The merge is the one value that reads, path by path, as the target where the path leaves the patch and as the patch without its nulls everywhere else. |
| `MergePatch.MergeCommutes` | cmd/cordumctl/pack.go:1957-1983 | Two patches that overlap at object nodes only commute on every target. |
| `MergePatch.DeleteClears` | cmd/cordumctl/pack.go:1936-1955 | Merging a delete patch removes every leaf the patch reached and keeps every other leaf. |
| `Canonical.DecodeEncode` | cmd/cordumctl/pack.go:2045-2109 | A decoder recovers every value from its canonical text, whatever follows it. |
| `Canonical.EncodeInjective` | cmd/cordumctl/pack.go:2045-2109 | Equal canonical text means equal values. |
| `Canonical.EncodeIsPlain` | cmd/cordumctl/pack.go:2045-2109 | Canonical text holds no control character, no <, > or & and no line or paragraph separator, whatever the strings in it. |
| `Canonical.LessByFirstDifference` | cmd/cordumctl/pack.go:2072-2078 | A key is before another if and only if it is a proper prefix of it or has the smaller character where they first differ. |
| `CanonicalWriter.CanonicalJSON` | cmd/cordumctl/pack.go:2045-2109 | The recursive writer on a shared builder produces the canonical text, independent of the order in which maps are iterated. |
| `Canonical.SortKeys` | cmd/cordumctl/pack.go:2072-2078 | Sorting the keys of a map gives the one sorted listing of its key set. |
| `CanonicalWriter.SchemaNoop` | cmd/cordumctl/pack.go:725-733 | The digests of an existing and a wanted schema are equal exactly when the schemas are. |
| `CanonicalWriter.WorkflowNoop` | cmd/cordumctl/pack.go:756-764 | The digests of two workflows are equal exactly when they agree on every key but created_at and updated_at. |
| `PackInstaller.PlanSchemas` | cmd/cordumctl/pack.go:709-738 | A plan is a no-op exactly when the gateway holds a schema of the same canonical text; a different one is planned only with the upgrade flag, and without it is the only reason to refuse when calls succeed. |
| `PackInstaller.PlanWorkflows` | cmd/cordumctl/pack.go:740-769 | The same for workflows, timestamps ignored. |
| `PackInstaller.Installer.ApplyConfigOverlay` | cmd/cordumctl/pack.go:1329-1384 | When calls succeed, an overlay is applied exactly if it has a key and an object as patch and fits the value it meets; it then merges its patch into one key of one document, changes no other value, remembers the value it found, and is recorded exactly when it has a name. |
| `ConfigPatch.ValidateConfigPatch` | cmd/cordumctl/pack.go:1836-1934 | The loops accept exactly the patches for pools and timeouts whose sections are missing, null or maps of names that this pack owns or, for pools, exist already. |
| `ConfigPatch.AcceptedExactly` | cmd/cordumctl/pack.go:1836-1934 | Accepted are exactly the patches for pools with topics and pools and those for timeouts with topics and workflows, each section null or an object whose names are under a topic prefix of that pack, start with its ID or exist already, or start with its ID and a dot. |
| `ConfigPatch.OutsideExactly` | cmd/cordumctl/pack.go:1847-1934 | An accepted patch reaches a name outside its pack's if and only if it gives that section as null. |
| `ConfigPatch.OutsideKept` | cmd/cordumctl/pack.go:1847-1934 | Merging an accepted patch leaves the value at every such name alone, unless its section is given as null. |
| `ConfigPatch.NullTopicsAreRemoved` | cmd/cordumctl/pack.go:1849-1860 | A patch with null topics is accepted and removes the topic of another pack. |
| `PackNamespaces.ForeignNamesKept` | cmd/cordumctl/pack.go:386-398 | After every successful install, in every config key, a topic or workflow timeout not owned by that pack has its value from before, unless an overlay gave the section as null; then it is gone. |
| `PackInstaller.Installer.ApplyPolicyOverlay` | cmd/cordumctl/pack.go:1433-1484 | A successful policy overlay sets one fragment and changes no other value. |
| `PackInstaller.RestoreConfigOverlay` | cmd/cordumctl/pack.go:1410-1431 | A successful restore puts the remembered value back into one config key, or removes the key, and changes nothing else. |
| `PackInstaller.RestorePolicyOverlay` | cmd/cordumctl/pack.go:1507-1533 | The same for one policy fragment. |
| `PackInstaller.Undo` | cmd/cordumctl/pack.go:1543-1563 | A successful undo puts the remembered value back into its cell (nothing, for a topic) and changes nothing else; a failing one changes nothing. |
| `PackInstaller.Installer.Rollback` | cmd/cordumctl/pack.go:659-707 | Every recorded change is attempted, list by list and each from last to first, whatever the others did; each cell ends with the undo value of the earliest change on it whose undo succeeded. |
| `PackInstaller.RunPackInstall` | cmd/cordumctl/pack.go:318-452 | A refusal changes nothing; when calls succeed exactly the acceptable installs succeed, ownership included; a finished one leaves exactly its writes, in order, and in the registry its record, whose overlays are the applied ones with a name; a failed one attempts every undo, and if they succeed every cell has its pre-install value when all overlays are named, except that every topic it registered is gone. |
| `PackInstaller.BuildRecord` | cmd/cordumctl/pack.go:410-445 | The record built from the lists of what was applied has the digests of all plans, the named overlays that were not skipped, and is active exactly if one of them is for the pools and the install is not inactive. |
| `PackOutcome.InactiveLeavesPools` | cmd/cordumctl/pack.go:1238-1243 | After a finished inactive install every pools key of every document has its value from before. |
| `PackOutcome.OverlayArrives` | cmd/cordumctl/pack.go:386-398 | After a finished install each leaf of each overlay, those for pools keys aside if it is inactive, is in its key unless a later overlay of that pack reaches it; a null leaf is gone. |
| `PackOutcome.RecordSays` | cmd/cordumctl/pack.go:410-445 | The record lists exactly the overlays with a name, those for pools keys aside if the install is inactive, with the keys they were merged into; it is ACTIVE exactly if one of them is for a pools key; ID, aliases and topics are the manifest's. |
| `PackOutcome.PoliciesRecorded` | cmd/cordumctl/pack.go:399-408 | The record lists exactly the policy overlays with a name, each with the fragment it was put into. |
| `PackOutcome.ResourcesRecorded` | cmd/cordumctl/pack.go:336-350 | The record has exactly the IDs of all schema and workflow files, each with the digest of its last file. |
| `PackOutcome.SchemaArrives` | cmd/cordumctl/pack.go:367-375 | Each schema with an ID of its own is at the gateway with its canonical text; without the upgrade flag one that was there is left alone. |
| `PackOutcome.WorkflowArrives` | cmd/cordumctl/pack.go:376-384 | The same for workflows, timestamps aside. |
| `PackOutcome.FragmentArrives` | cmd/cordumctl/pack.go:1433-1484 | The last policy overlay of each name is in the policy document under its pack ID, a slash and that name. |
| `PackOutcome.FragmentsApart` | cmd/cordumctl/pack.go:1535-1541 | Two policy overlays share a fragment if and only if they belong to one pack and have one name, surrounding spaces aside, where no name is the name default. |
| `PackOutcome.TopicArrives` | cmd/cordumctl/pack.go:418-423 | The last registration of each topic is at the gateway. |
| `PackInstall.RollbackOutcome` | cmd/cordumctl/pack.go:659-707 | What a complete rollback leaves in each cell: the value the changes before its first recorded one left there; nothing for a registered topic. |
| `PackInstaller.UnnamedOverlaySurvives` | cmd/cordumctl/pack.go:386-398 | From the contract of the install: a pack of one overlay without a name leaves it behind after a rollback in which every undo succeeded. |
| `PackInstaller.EarlierRegistrationIsLost` | cmd/cordumctl/pack.go:1557-1563 | From the contract of the install: a topic that was registered before is gone after such a rollback. |
| `PackRecords.RegistryRoundTrip` | cmd/cordumctl/pack.go:1661-1699 | Every registry of records with object patches is read back as it was written. |
| `RegistryStore.LoadRegistry` | cmd/cordumctl/pack.go:1661-1685 | Reads exactly the stored records; a missing document is empty, one that does not decode is an error. |
| `RegistryStore.UpdateRegistry` | cmd/cordumctl/pack.go:1623-1642 | Only the registry changes, and in it only this record; a document that does not decode is an error and stays. |
| `PackUninstall.OverlaysLeaveNoTrace` | cmd/cordumctl/pack.go:484-489 | Once every overlay was removed, in any order and with any compatible patches of others in between, no leaf is left where the overlays reached and every other leaf is what the others alone made of it. |
| `PackUninstall.UninstallRestores` | cmd/cordumctl/pack.go:1386-1408 | A leaf is that of a history without the overlays if and only if the overlays did not reach a leaf that was there before and that nobody else replaced. |
| `PackUninstall.InstallMerges` | cmd/cordumctl/pack.go:386-398 | A finished install has merged its overlays into each key one after the other. |
| `PackUninstall.RunLeaf` | cmd/cordumctl/pack.go:1957-1983 | Over any sequence of merges and removals a leaf is what the last one that reaches it puts there: nothing for a removal or a null, else the patch's own leaf. |
| `PackUninstall.InstallThenUninstall` | cmd/cordumctl/pack.go:484-489 | For every list of overlays and any patches of others in between: a leaf that a recorded overlay reaches is gone, and every other leaf is what the unrecorded overlays and the others make of it. |
| `PackUninstall.NoTraceExactly` | cmd/cordumctl/pack.go:484-489 | A leaf is what the others alone would have made of it if and only if, where a recorded overlay reaches, they leave nothing there, and elsewhere one of them reaches it or the unrecorded overlays did not change it. |
| `PackUninstall.KeyHasNoTrace` | cmd/cordumctl/pack.go:1386-1408 | With nobody else writing, a key has no trace exactly when the leaves recorded overlays reach were not there before and no unrecorded overlay changed a leaf that no recorded one reaches. |
| `PackUninstaller.RemoveConfigOverlay` | cmd/cordumctl/pack.go:1386-1408 | A successful removal merges the delete patch into one key if it is there and changes nothing else. |
| `PackUninstaller.RunPackUninstall` | cmd/cordumctl/pack.go:454-522 | The record is the one in the registry, and a pack without one is refused with nothing changed; when calls succeed exactly the recorded packs are uninstalled; it removes exactly the recorded overlays, fragments and topics, purges recorded resources only if asked, and writes the record back disabled, all other records unchanged. |
| `PackUninstaller.RoundTrip` | cmd/cordumctl/pack.go:484-489 | For every pack, from the contracts of install and uninstall: a leaf that a named overlay reaches is gone and every other leaf is what the unnamed overlays and the patches in between make of the value before the install. |
| `PackUninstaller.InstallPatchUninstall` | cmd/cordumctl/pack.go:318-522 | The same at one gateway: install, patches by others, and an uninstall that finds in the registry the record the install put there; named fragments and all topics are gone too, and after a purge in which no call fails schemas and workflows; when no call fails every acceptable pack gets through. |
| `PackRegistry.ValidatePackAliases` | cmd/cordumctl/pack.go:851-873 | Accepts exactly at most eight aliases that match the pattern and differ, surrounding spaces aside. |
| `PackRegistry.ValidatePackManifest` | cmd/cordumctl/pack.go:1006-1075 | Accepts exactly the manifests whose names, versions, topics, schemas, schema references and workflows meet every rule. |
| `PackHistory.ManifestNames` | cmd/cordumctl/pack.go:1006-1075 | In an accepted manifest every topic is under job., a namespace of that pack and a dot, every schema under the ID and a slash, every workflow under the ID and a dot. |
| `PackRegistry.InstalledPackNamespaceOwners` | cmd/cordumctl/pack.go:928-943 | Finds exactly the namespaces held by records of other owners. |
| `PackRegistry.ValidatePackAliasOwnership` | cmd/cordumctl/pack.go:879-926 | Accepts exactly when no alias repeats the ID and no record of another owner holds a requested namespace, a requested topic, or a topic under a requested prefix. |
| `PackHistory.PackManager.InstallPack` | cmd/cordumctl/pack.go:351-357 | Installs exactly the packs that pass both checks, and changes only their own record. |
| `PackHistory.PacksStaySeparate` | cmd/cordumctl/pack.go:879-926 | After every history of installs, upgrades and uninstalls from an empty registry, two packs share no namespace, topic, schema or workflow, and own no topic under the other's prefixes, if and only if their trimmed IDs differ, so exactly when they are distinct if IDs are trimmed. |
| `PackHistory.UntrimmedIdsCollide` | cmd/cordumctl/pack.go:945-953 | Two packs whose IDs differ in a leading space both install and hold the same namespace. |
| `CodexAdapter.ParseSections` | cmd/cordumctl/mcp_adapter_codex.go:82-114 | The line loop with its running offset fails exactly on an unterminated header and otherwise finds, for each server header, the offsets from it to the next header or the end. |
| `CodexAdapter.RenderGatewayBlock` | cmd/cordumctl/mcp_adapter_codex.go:222-263 | Renders exactly the gateways with a command and an empty or stdio transport, line by line into a buffer. |
| `CodexReader.QuoteReadBack` | cmd/cordumctl/mcp_adapter_codex.go:250-263 | Every string is read back from its quoted form, whatever follows it; with the escapes of TOML exactly the strings whose control characters all have a short escape there. |
| `CodexReader.MergedReadsBack` | cmd/cordumctl/mcp_adapter_codex.go:222-263 | For every config and every gateway that can be rendered, its section in the merged config reads back as its ID, the command, the arguments after it, the secret reference if there is one, and enabled; with the escapes of TOML if and only if all its strings can be read. |
| `CodexReader.BellIsUnreadable` | cmd/cordumctl/mcp_adapter_codex.go:250-263 | An argument with a bell character is written in a way TOML cannot read. |
| `CodexAdapter.OnlyBareKeeps` | cmd/cordumctl/mcp_adapter_codex.go:136-153 | The ID keeps exactly the letters, digits, underscores and dashes of the name, in order. |
| `CodexAdapter.RenderedIsBlock` | cmd/cordumctl/mcp_adapter_codex.go:136-153 | The rendered block is one header line that parses back to the gateway's ID, followed by lines that open no section, whatever text is quoted in them. |
| `CodexAdapter.ReplaceSection` | cmd/cordumctl/mcp_adapter_codex.go:178-199 | The splice into an output buffer keeps the text before the section and from its end on, newlines right there aside, with the block and, if text follows, one newline in between. |
| `CodexAdapter.RenderMerged` | cmd/cordumctl/mcp_adapter_codex.go:159-205 | Replaces the first section of the server, or appends the block if there is none. |
| `CodexAdapter.ReadAndMerge` | cmd/cordumctl/mcp_adapter_codex.go:38-64 | Succeeds exactly for a config that parses and a gateway that can be rendered, and then returns the merge. |
| `Codex.MergeIsLines` | cmd/cordumctl/mcp_adapter_codex.go:159-215 | The merge on byte offsets is the merge on lines: the lines before the section, the block, an empty line, and the lines from the next header on. |
| `Codex.MergeIdempotent` | cmd/cordumctl/mcp_adapter_codex.go:159-215 | Merging the same block into the result returns the same text, for every text. |
| `CodexAdapter.MergeTwice` | cmd/cordumctl/mcp_adapter_codex.go:38-64 | For every config that parses and every gateway that can be rendered the result parses, a second merge returns it unchanged, and all section headers are kept in order, with the gateway's own added at the end if it was not there. |
| `CodexKept.MergeKeepsRest` | cmd/cordumctl/mcp_adapter_codex.go:178-215 | Parsing the merged text again finds a section of the gateway, and the text before that section and from its end on is what stood around the old one; without an old one it is the old text, newlines at its end aside, and nothing. |
| `CodexKept.CommentsKept` | cmd/cordumctl/mcp_adapter_codex.go:178-215 | The merge keeps all comments, in order, if and only if none stands between the gateway's header and the next one. |
| `CodexKept.CommentIsDropped` | cmd/cordumctl/mcp_adapter_codex.go:178-190 | For a real gateway and config: a comment above the section that follows the gateway's is gone after the merge. |
| `Routing.BuildRouting` | cmd/cordum-scheduler/config_overlay.go:340-373 | The loops over pools and topics compute the routing function, whatever order the maps are iterated in. |
| `Routing.RoutedExactly` | cmd/cordum-scheduler/config_overlay.go:340-373 | A topic is routed to exactly its listed pools that are not declared with status draining or inactive, and a routed topic has at least one; the pools offered are the declared ones of another status, with their requirements. |
| `Routing.ActiveOrder` | cmd/cordum-scheduler/config_overlay.go:361-369 | The pools kept for a topic stay in the order and number in which they are listed. |
| `ConfigWatch.NoLostChange` | cmd/cordum-scheduler/config_overlay.go:256-301 | In every run, whenever the watcher waits with no token and its last reload could load the document, it has read a snapshot no older than the last notified write, and the routing in force is built from that snapshot's pools if they are usable. |
| `ConfigWatch.QuiescentIsCurrent` | cmd/cordum-scheduler/config_overlay.go:256-301 | Once the last write has been notified and the watcher waits, the routing is that of the document as it stands. |
| `ConfigWatch.SameHashSamePools` | cmd/cordum-scheduler/config_overlay.go:395-410 | Documents with the same pools digest have the same pools, so skipping an apply loses nothing. |
| `ConfigWatch.NormalizeReads` | cmd/cordum-scheduler/config_overlay.go:441-458 | Only topics and pools of the value count, the lower-case spelling before the capitalized one. |
| `ConfigWatch.RoutingIsLastUsable` | cmd/cordum-scheduler/config_overlay.go:200-289 | In every run the routing in force is built from the latest document read that had usable pools, and is the initial one if none had. |
| `ConfigWatch.UnusablePoolsKeepRouting` | cmd/cordum-scheduler/config_overlay.go:200-238 | After a reload without usable pools the initial routing is in force if and only if no earlier read had usable pools or the latest that had gives the same routing. |
| `ConfigWatch.RemovedPoolsStayRouted` | cmd/cordum-scheduler/config_overlay.go:267-276 | Pools removed from the document stay routed although the write was notified, read and handled. |
| `ConfigWatcher.Watcher.OnConfigChanged` | cmd/cordum-scheduler/config_overlay.go:47-62 | A notification leaves a token in the channel, whether or not one was there. |
| `ConfigWatcher.Watcher.Reload` | cmd/cordum-scheduler/config_overlay.go:267-289 | A reload ends idle; a load that succeeds reads the latest write at that moment, whatever arrives before and after it. |
| `ConfigWatcher.Watcher.WatchConfigChanges` | cmd/cordum-scheduler/config_overlay.go:291-302 | A poll reads everything stored before it, and after any number of rounds with writes and notifications anywhere, an idle watcher without a token routes by a snapshot no older than the last notified write, if its pools are usable. |

## Left out

- SIEM back ends, HTTP and NATS transports: an export, a publish and a REST call are steps that succeed or fail.
- Cryptographic internals of SHA-256, HMAC and signatures; pack signature verification.
- Time: backoff and jitter, tickers, deadlines and lock TTLs are choices of the environment; an install or uninstall holds its locks throughout.
- encoding/json and YAML decoding: decoded values are modelled, and event encoding fails only for years outside 0..9999. Text is a sequence of characters, not UTF-8 bytes; lower-casing is that of ASCII letters.
- A custom Redis key prefix; the "seq" field of a stream entry, which nothing reads.
- The nil event and the nil manifest, which Dafny's types exclude.
- VerifyTheorems.CheckerCompleteness: requires fewer than 2^63 events since genesis, because the seq wraps there, and the verification key to be the one all writers use.
- VerifyWindows.WindowGluing: requires IDs within int64 at the cut, because the source looks up another entry beyond it.
- PackInstaller.RunPackInstall: assumes a failing REST call has no effect and that the gateway stores a workflow under the ID it carries; pool and status of a topic registration and the hex form of digests are parameters; manifest validation is left to PackRegistry.
- PackRecords.RegistryRoundTrip: leaves out the record's version, installation time, compatibility, tests and verification, which no later step reads; member names are matched exactly, and empty members are written rather than omitted.
- PackUninstaller.RunPackUninstall: requires the stored records to be ones an install can have written, which installs and uninstalls keep.
- PackUninstaller.InstallPatchUninstall: the patches by others are to config keys other than the registry and the policy fragments.
- PackRegistry.ValidatePackManifest: parseSemver is a parameter; protocol and core version checks are not modelled.
- PackHistory.PackManager.InstallPack: takes the registry write as part of one step, and leaves the other steps of the install to PackInstaller.
- CodexAdapter.ReadAndMerge: does not model the preview text; which characters beyond ASCII are printable is a parameter.
- ConfigWatch.NoLostChange: covers the pools; the timeouts follow the same digest rule, and the fail modes are read again on each reload.
- bootstrapConfig, which merges the file's pools into the stored document.
- ParsePoolsConfig and its schema validation: a function parameter.
- legal_hold.go: its check and its creation are not atomic, so only sequential claims would hold.
- Export.WriteExport: the row filter (rowMatches) is a parameter.
- CSV and NDJSON formatting of rows, csvSafe, the manifest's other fields.
- CLI commands, flags, archive extraction, file paths, doctor checks, templates, scheduler and gateway wiring.
