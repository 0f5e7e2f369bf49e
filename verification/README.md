# Verified model of the semantic Worker protocol and the lexical index

A Dafny model of the parts of the repository whose correctness is hard to see: the
protocol between the parent and its semantic Worker, the Worker's life cycle, the lexical
reference prover and class-base resolver of the index, and the freshness machinery around
them. `dafny verify dfyconfig.toml` checks everything.

Objects of the source are classes whose methods are proved against functions of the
object's state; the functions are then run over all sequences of events, and the laws
hold in every run. Loops of the source are loops here, proved against the same functions.

| files | what they model |
|---|---|
| `Text`, `CanonicalJson`, `Envelope` | byte accounting of strings, of JSON trees and of commands |
| `Mutations`, `Coalescing`, `Lanes`, `PendingReads` | the coalescing queue, the scheduler, the read queue |
| `Supervisor`, `SupervisorObject` | the parent side of one root: its steps, and the object |
| `Settlement`, `ParentLaws`, `MessageLog`, `Growth`, `Exhaustion` | ownership of records, the parent's invariant, the log of sent messages, the last id and the last byte |
| `Delivery`, `EditQueue` | what each record is settled with, and what is admitted and sent |
| `Protocol`, `Flight`, `RuntimeObject` | the Worker, and parent and Worker together |
| `RelativeSources`, `RelativePaths`, `ReferenceBindings` | candidate documents, and the passes that resolve binding sources in place |
| `ReferenceProver`, `ReferenceAnswer`, `ReferenceOrder` | the two loops, the answer, and when the order of visits matters |
| `ReferenceWorlds`, `ReferenceScope`, `ReferenceCoherence` | the worlds the resolutions leave open, what may refer in them, and what coherent ones rule out |
| `ReferenceNarrowed`, `ReferenceTruth`, `ReferenceLimits` | the answer's truth in the worlds, and where it stops |
| `ClassFacts`, `ClassWalk`, `ClassBase`, `ClassScopes` | the class-base resolver and its three modes, and what names mean |
| `LineIndex`, `Delimiters`, `ClassHeritage`, `ClassHeritageLaws`, `ClassRecords` | parsing of class facts, their storage validation, and what is recorded |
| `FailureRecovery`, `CircuitMemory`, `Watchdog`, `Recycle`, `DeferredEdits`, `Restart`, `Host`, `InFlight` | restart policy, deadlines, replay, freshness after it, the one Worker, coalesced requests |
| `Coordinator`, `CoordinatorMarks` | watched-file events |
| `ConfigurationWitness`, `WitnessMemory`, `RequestInputs`, `QuietLoads` | load evidence, and the scan before publication |

## Where the code differs from what one expects

Each of these is stated as a lemma with a concrete input, beside the exact condition on the
input under which the expected law holds.

- A read is encoded again when it is sent, and its id must be a safe integer: past 2^53 - 1
  ids it leaves its queue, is owned by nobody and nothing settles it (`IdsCanRunOut`,
  `DeadlineSettlesEveryRecord`).
- An edit is checked under revision 1 and sent under its own: one that fills a message is
  accepted and then fails the supervisor (`AcceptedEditCanFailSupervisor`,
  `AcceptedEditEncodes`).
- Edits deferred between the last look of the flush loop and the resumption of its caller
  are dropped by the recovery (`GapLosesAnEdit`, `RecoveredExactlyWhenGapIsIdle`).
- Two workspace roots that are one directory: dirty batches carry the URI of the last one
  (`AliasedRootIsMisnamed`, `DirtyRootIsNamed`).
- With one name exported both from the declaration and from elsewhere, the prover's verdicts
  depend on the order of the bindings (`OrderMatters`, `VerdictsIgnoreOrderExactly`). No
  such name is left where the program is coherent (`CoherentIsUndisputed`). The law ranges
  over all orders of the bindings; the input uses an order the stores can produce.
- A default export re-exported under a name: an unresolved package importing that name is
  passed over, and a complete answer misses its document (`DefaultCanMissHiddenImporter`,
  `CompleteDefaultExactly`, `CoversEveryWorldExactly`).
- A complete answer's narrowed documents can miss an identity document
  (`NarrowedCanMissIdentity`, `NarrowedDropsExactly`, `NarrowedCoversExactly`).
- Line and column numbers are cut to 32 bits (`LongLineWraps`,
  `PositionsIncreaseExactlyWhenTheyFit`; for class facts `WrappedNameIsInvalid`,
  `ParsedHeritageIsValidExactly`).
- A Worker failure reported while the restart circuit is open may still restart the Worker;
  the comment beside `admit` says only changed input and explicit work can
  (`OpenCircuitCanRestart`, `OpenCircuitRestarts`).

## What stands for the outside world

- Knowledge: a query is answered from a snapshot of everything the Worker was told
  (`Mutations.Knowledge`); the compiler behind it is not modelled.
- Encoding is computed from the command (`Envelope`); handing a message to the endpoint may
  throw, and each record carries that `fate`.
- Clocks are event times that never go back; file-system lookups are an arbitrary function
  of time (`RequestInputs.FileSystem`); threads end and report their exit at any time.
- Paths of watched files arrive resolved to a root; the token stream of a document arrives
  ordered and on character boundaries.

## Model

| member | source | states |
|---|---|---|
| `Protocol.PublishedAnswersAreFresh` | src/semantic/semantic-worker-supervisor.ts:632-655 | In every run of parent, channel and Worker, a value is published only for a read admitted after the last accepted mutation, and the Worker held exactly the fold of all accepted mutations from the start of the read to its answer; the detached `references` read included |
| `Protocol.InvInEveryRun` | src/semantic/semantic-worker-runtime.ts:212-253 | Every reachable state: the parent's books are sound, its log numbers the edits contiguously and means, with the queue, the accepted mutations; the Worker is in step with the log and every message it posted is true of it |
| `Flight.EveryMessageIsExpected` | src/semantic/semantic-worker-supervisor.ts:350-381 | In every run an open parent never receives an unexpected message: each message the Worker posts answers the command in one of the parent's slots |
| `Flight.AwaitedInEveryRun` | src/semantic/semantic-worker-supervisor.ts:325-342 | While the parent is open, every command in the inbox, running or answered in the channel has a slot waiting for it, and none is doubled |
| `Flight.WorkerNeverDies` | src/semantic/semantic-worker-runtime.ts:215-218 | In every run the Worker never meets a revision that is not contiguous |
| `Protocol.ReceivePublishesFresh` | src/semantic/semantic-worker-supervisor.ts:350-381 | One received message, true of the log, publishes nothing but a fresh answer |
| `Protocol.TakeEditHonest` | src/semantic/semantic-worker-runtime.ts:212-247 | An edit with the next revision keeps the Worker in step with the log and never kills it |
| `Protocol.TakeReadHonest` | src/semantic/semantic-worker-runtime.ts:249-264 | A read starts on exactly what the log has said, at the revision it requires and on a document at the version asked for; otherwise it is refused: `restart-required` from a quarantined Worker or at another revision, `content-modified` when the document is not there at its version |
| `MessageLog.HandleLogged` | src/semantic/semantic-worker-supervisor.ts:299-348 | No handler of the parent breaks what the log of sent messages says: contiguous revisions, increasing request ids, and log plus queue mean the accepted sequence |
| `ParentLaws.OneOwnerInEveryRun` | src/semantic/semantic-worker-supervisor.ts:299-427 | At every step each record is in exactly one of: queued, active, detached, settled, or lost |
| `ParentLaws.SettledAtMostOnce` | src/semantic/semantic-worker-supervisor.ts:470-529 | No completion is settled twice across response, cancel, invalidate, fail, dispose and deadline |
| `ParentLaws.DeadlineSettlesEveryRecord` | src/semantic/semantic-worker-supervisor.ts:599-620 | After disposal or failure a deadline is awaited, that of the disposal or that of the termination, and whichever passes leaves every record settled exactly once, exactly when no request id past 2^53 - 1 was handed out |
| `Exhaustion.IdsCanRunOut` | src/semantic/semantic-worker-supervisor.ts:311-347 | A run that uses up every id and then loses a read: it was admitted, its encoding throws when it is sent, and neither the deadline nor anything later settles it |
| `Exhaustion.LostIsNeverSettled` | src/semantic/semantic-worker-supervisor.ts:318-333 | In every run a read that was lost is settled by nothing that follows |
| `Exhaustion.AcceptedEditCanFailSupervisor` | src/semantic/semantic-worker-supervisor.ts:318-333 | A run in which an accepted edit fails the supervisor: it fills a message under revision 1, where it was checked, and not under revision 10, where it is sent |
| `Envelope.AdmittedReadEncodes` | src/semantic/worker-protocol.ts:616-628 | A read within the queue's bytes encodes under the numbers it is sent with exactly when its id is a safe integer |
| `Envelope.AcceptedEditEncodes` | src/semantic/semantic-worker-command-codec.ts:13-81 | An edit that encoded under revision 1 encodes under the revision it is sent with exactly when the further digits fit in the envelope |
| `Envelope.EnvelopeIsReadBytes` | src/semantic/worker-protocol.ts:616-628 | Wherever the header's members stand among those of the input, the envelope takes the input's bytes and the header's |
| `Envelope.JsonObjectWireBytes` | src/semantic/worker-protocol.ts:1768-1782 | The loop over the members returns the object's bytes, or refuses exactly when they pass the limit |
| `ParentLaws.HandleSound` | src/semantic/semantic-worker-supervisor.ts:149-231 | Every handler keeps the parent's invariant: bounded queues, exact text total, one lane for `references`, and no running read with a live cell older than the last mutation |
| `ParentLaws.PumpBranchesUnreachable` | src/semantic/semantic-worker-supervisor.ts:303-316 | In every sound state the stale-generation branch and the busy-lane throw of the pump are not taken |
| `Growth.HandleGrows` | src/semantic/semantic-worker-supervisor.ts:350-427 | Handlers only append to the log and to the settlements, and only a received message publishes |
| `Delivery.AnswersAreDelivered` | src/semantic/semantic-worker-supervisor.ts:632-655 | In every run: an open supervisor that receives the answer to a read settles the read at once, with exactly the answer when no mutation was accepted, it was not cancelled and nothing was disposed or failed since its admission, and otherwise with the code of the first of these events |
| `Delivery.RunIsTrace` | src/semantic/semantic-worker-supervisor.ts:299-427 | The states of a run are a trace, the form in which the laws of delivery speak of runs |
| `Delivery.TraceIsRun` | src/semantic/semantic-worker-supervisor.ts:299-427 | Every trace consists of the states of a run |
| `Delivery.CellTellsFirst` | src/semantic/semantic-worker-supervisor.ts:500-529 | In every run the cell of a read that still waits tells the first of the events since its admission that revoke it: a mutation, its cancellation, disposal or failure |
| `Delivery.AcknowledgementsAreDelivered` | src/semantic/semantic-worker-supervisor.ts:365-376 | A contiguous acknowledgement settles the running edit as acknowledged |
| `Delivery.DeadlinesRejectWhatRuns` | src/semantic/semantic-worker-supervisor.ts:599-620 | In every run a deadline that is awaited rejects every running read, by its own cancellation if that came first, else under the code of the disposal or the failure |
| `Delivery.QueuedReadsAreRejected` | src/semantic/semantic-worker-supervisor.ts:500-516 | A queued read is rejected at once: by an accepted mutation as modified content, by a refused one as needing a restart, by disposal or a failing endpoint as unavailable |
| `Delivery.CancelledReadsAreRejected` | src/semantic/semantic-worker-supervisor.ts:518-529 | A cancellation of a queued read rejects it under its own reason |
| `EditQueue.NothingIsLeftLying` | src/semantic/semantic-worker-supervisor.ts:299-348 | In every run an open supervisor whose command slot is free has nothing it could send: no queued edit, and no read the scheduler would take |
| `EditQueue.RequestsAreRefusedExactly` | src/semantic/semantic-worker-supervisor.ts:233-266 | A read overflows exactly when with it more than 64 documents or 4 MiB of input would be queued, and then nothing else changes; it leaves no trace exactly when the supervisor is closed or its input does not encode |
| `EditQueue.MutationsAreRefusedExactly` | src/semantic/semantic-worker-supervisor.ts:171-216 | A valid mutation is accepted exactly when a record can absorb it or there is room for one more, within 32 records, 4 MiB of text and the bounds of one message; otherwise it is rejected with `restart-required` and the supervisor shuts down |
| `EditQueue.QueueIsCompactInEveryRun` | src/semantic/semantic-worker-supervisor.ts:171-208 | In every run two queued records of one document are separated by a close of it or by a workspace batch, and no two batches are neighbours |
| `SupervisorObject.RootSemanticWorkerSupervisor.DoMutate` | src/semantic/semantic-worker-supervisor.ts:149-231 | The object's mutation handler reaches exactly the specified state: coalesced record, recomputed totals, revoked reads, or rejection and shutdown |
| `SupervisorObject.RootSemanticWorkerSupervisor.Weigh` | src/semantic/semantic-worker-supervisor.ts:171-208 | The incremental totals the handler computes are those of the queue it would get, and it refuses exactly when that queue breaks a bound or the merged batch has too many paths |
| `SupervisorObject.RootSemanticWorkerSupervisor.DoRequest` | src/semantic/semantic-worker-supervisor.ts:233-266 | Admission, overflow or immediate start of a read, as specified |
| `SupervisorObject.RootSemanticWorkerSupervisor.DoCancelRequest` | src/semantic/semantic-worker-supervisor.ts:518-529 | First reason wins; a running read keeps its slot, a queued one is withdrawn and rejected by the winner |
| `SupervisorObject.RootSemanticWorkerSupervisor.DoReceive` | src/semantic/semantic-worker-supervisor.ts:350-381 | The whole new state after a detached reply, acknowledgement, active reply, or failure on anything else; then the next command; what each read is settled with is `Delivery.AnswersAreDelivered` |
| `SupervisorObject.RootSemanticWorkerSupervisor.DoPump` | src/semantic/semantic-worker-supervisor.ts:299-348 | The recursive pump of the object reaches the state of the specified pump |
| `SupervisorObject.RootSemanticWorkerSupervisor.DoFail` | src/semantic/semantic-worker-supervisor.ts:383-427 | First failure retires everything; a terminal report settles what still runs |
| `SupervisorObject.RootSemanticWorkerSupervisor.BeginShutdown` | src/semantic/semantic-worker-supervisor.ts:429-460 | A fatal shutdown retires everything once, under its own code |
| `SupervisorObject.RootSemanticWorkerSupervisor.RejectMutationAndRestart` | src/semantic/semantic-worker-supervisor.ts:462-468 | The refused mutation is rejected and the supervisor shuts down with `restart-required` |
| `SupervisorObject.RootSemanticWorkerSupervisor.DoDispose` | src/semantic/semantic-worker-supervisor.ts:268-297 | Disposal, once and also after a failure, rejects both queues and revokes running reads through their cells |
| `SupervisorObject.RootSemanticWorkerSupervisor.DeadlinePassed` | src/semantic/semantic-worker-supervisor.ts:599-620 | The deadline of the disposal settles the active and the detached record with `worker-unavailable`, that of a termination with the code of the failure |
| `SupervisorObject.RootSemanticWorkerSupervisor.SettleActiveFailure` | src/semantic/semantic-worker-supervisor.ts:470-484 | The active record is rejected, a read by its own cancellation first, and the slot is free |
| `SupervisorObject.RootSemanticWorkerSupervisor.SettleDetachedFailure` | src/semantic/semantic-worker-supervisor.ts:486-498 | The same for the detached record |
| `SupervisorObject.RootSemanticWorkerSupervisor.InvalidateRequests` | src/semantic/semantic-worker-supervisor.ts:509-516 | A mutation revokes the running reads and rejects every queued read |
| `RuntimeObject.SemanticWorkerRuntime.Dispatch` | src/semantic/semantic-worker-runtime.ts:106-155 | One message of the inbox, once the current read is answered, as the Worker's specification says |
| `RuntimeObject.SemanticWorkerRuntime.ApplyMutation` | src/semantic/semantic-worker-runtime.ts:212-247 | Contiguous revision or death; the knowledge, revision and acknowledgement otherwise |
| `RuntimeObject.SemanticWorkerRuntime.AnswerRequest` | src/semantic/semantic-worker-runtime.ts:249-264 | Revision and document gates of a read; `references` runs in the background |
| `Mutations.CoalescedQueueRefinesPlainQueue` | src/semantic/semantic-worker-supervisor.ts:171-230 | For any accepts interleaved with any dequeues, what was sent followed by the coalesced queue means the uncoalesced sequence: document map, deletions, flags, and the maps on which workspace events arrived |
| `Mutations.CoalescedQueueKeepsLifetimes` | src/semantic/semantic-worker-mutation-coalescing.ts:6-36 | If the accepted sequence opens and closes documents legally, so does the sequence the Worker is sent |
| `Mutations.EnqueueMeansAppend` | src/semantic/semantic-worker-mutation-coalescing.ts:7-36 | Coalescing one mutation into any queue means appending it |
| `Mutations.MergedBatchMeaning` | src/semantic/semantic-worker-mutation-coalescing.ts:38-71 | A merged batch lists the union of the paths, each once, as `deleted` exactly when the last event for it was a delete |
| `Mutations.MergeKeepsEvents` | src/semantic/semantic-worker-mutation-coalescing.ts:43-49 | Observing a merged batch is observing both batches in order, on any prior state |
| `Mutations.MergeRefusedOnlyForSize` | src/semantic/semantic-worker-workspace-mutation-codec.ts:44-55 | A merge of two batches that obey the codec's rules obeys them exactly when the union of paths is within the bound |
| `Mutations.FindCoalescing` | src/semantic/semantic-worker-mutation-coalescing.ts:7-25 | The backward search finds the record that must absorb the mutation, as `Coalescing.EnqueueExactly` says without it, or none |
| `Coalescing.EnqueueExactly` | src/semantic/semantic-worker-mutation-coalescing.ts:6-36 | Accepting onto a record that must absorb the mutation (the last of its document, with no batch or close between; for a batch, a batch at the tail) keeps the queue's length and every other record; without such a record the mutation joins the tail |
| `Coalescing.QueueIsCompact` | src/semantic/semantic-worker-mutation-coalescing.ts:7-36 | In every queue that accepts and dequeues reach, two records of one document are separated by a close of it or by a workspace batch, and no two workspace batches are adjacent |
| `Mutations.MergeWorkspaceInvalidations` | src/semantic/semantic-worker-mutation-coalescing.ts:38-59 | The map-updating loop computes the specified merge |
| `Lanes.TakenWithinBound` | src/semantic/semantic-request-lanes.ts:37-61 | With no detached reference, the read at index k is gone after 2(k+1) takes under any arrivals and withdrawals |
| `Lanes.SelectionKeepsOrder` | src/semantic/semantic-request-lanes.ts:42-60 | A selected read passes no read of its own class, and no global one unless a reference is detached |
| `Lanes.SelectionExactly` | src/semantic/semantic-request-lanes.ts:37-61 | With a detached reference the first read of an interactive lane is taken, and none exactly when there is none; otherwise the head if it is global or was passed once, else the first of the most urgent reads that no global one precedes; and when the head is marked as passed |
| `Lanes.DetachedLaneIsNeverBusy` | src/semantic/semantic-request-lanes.ts:42-47 | While a reference is detached no global read is taken |
| `Lanes.TakeNext` | src/semantic/semantic-request-lanes.ts:37-61 | Scan and splice agree with the selection function |
| `PendingReads.PendingReads.Add` | src/semantic/semantic-worker-pending-reads.ts:16-27 | Admits exactly the reads that keep sources and bytes within their limits, and keeps the three books exact |
| `PendingReads.PendingReads.TakeSelected` | src/semantic/semantic-worker-pending-reads.ts:29-33 | Takes the scheduler's choice; the admission weight is always on the books |
| `PendingReads.PendingReads.Remove` | src/semantic/semantic-worker-pending-reads.ts:35-41 | Removes exactly the named read |
| `PendingReads.PendingReads.Drain` | src/semantic/semantic-worker-pending-reads.ts:43-49 | Hands over the whole queue and empties the books |
| `PendingReads.AdmissionBySize` | src/semantic/semantic-worker-pending-reads.ts:20-21 | The guard on the source counts is the bound on the number of distinct sources in the queue |
| `CanonicalJson.Canonicalize` | src/semantic/worker-protocol.ts:1463-1519 | Accepts exactly the legal trees of at most 65536 nodes whose serialization fits, and returns that serialization's length |
| `CanonicalJson.BytesAreLength` | src/semantic/worker-protocol.ts:1495-1508 | The byte measure of a legal tree is the length of its recursive JSON serialization |
| `CanonicalJson.Traverse` | src/semantic/worker-protocol.ts:1484-1516 | The work stack terminates, and balances with the measure of the tree |
| `CanonicalJson.ExpandArray` | src/semantic/worker-protocol.ts:1521-1557 | An array's brackets, commas and elements are claimed as its measure says |
| `CanonicalJson.ExpandRecord` | src/semantic/worker-protocol.ts:1559-1611 | The same for a record, skipping but counting undefined members |
| `Text.StringByteMetrics` | src/semantic/semantic-worker-string-bytes.ts:6-52 | For every UTF-16 sequence the loop returns the UTF-8 length and the length of the quoted form, or stops at the first limit passed |
| `Text.CountsAreLengths` | src/semantic/semantic-worker-string-bytes.ts:18-47 | The per-unit costs add up to the bytes of QuoteJSONString (section 25.5.2.3 of ECMA-262) in UTF-8 (section 3 of RFC 3629), lone surrogates included |
| `Text.Utf8IsRead` | src/semantic/semantic-worker-string-bytes.ts:18-47 | The bytes of a scalar value are read back as it, and its leading byte tells how many trail |
| `ReferenceTruth.ProveReferenceBindingChain` | crates/index-core/src/lib.rs:589-853 | In every coherent world left open by the resolutions and guarded against passed-over sources, hence in all coherent worlds when the question is tight, a complete answer names exactly the documents (by name: occurrences) that refer to the declaration, and a narrowed default answer misses none; limits are kept and an incomplete answer claims no identity; whether or not it is complete, a narrowed list of a named export holds the declaration's document and every document with an occurrence that does not mean something else, and without a disputed name the whole answer is the one the input's two closures give; and a complete default answer is exact in all coherent worlds exactly when the question is |
| `ReferenceProver.FindPossible` | crates/index-core/src/lib.rs:605-669 | The first loop ends, at the least set of bindings closed under unique and ambiguous edges |
| `ReferenceAnswer.Classify` | crates/index-core/src/lib.rs:670-770 | The second loop ends on verdicts that no further visit changes, and its tables record exactly those verdicts |
| `ReferenceAnswer.VisitBinding` | crates/index-core/src/lib.rs:712-764 | One visit of one binding updates the tables as the verdict function says |
| `ReferenceProver.VerdictsNeverFlip` | crates/index-core/src/lib.rs:710-770 | In any order of visits a binding recorded as proven is never recorded as separate, nor the reverse, while both tables grow |
| `ReferenceProver.ProvenBindingsHaveChains` | crates/index-core/src/lib.rs:745-763 | Every proven binding has a finite chain of unique sources and re-exports back to the declaration |
| `ReferenceProver.ProvenBindingsArePossible` | crates/index-core/src/lib.rs:632-669 | Every proven binding lies in the first loop's set |
| `ReferenceOrder.VerdictsIgnoreOrderExactly` | crates/index-core/src/lib.rs:710-770 | Repeated passes over the bindings settle on the same verdicts in every order of the bindings exactly when no binding imports a name that both a chain from the declaration and a chain from something separate export; over such a name two orders settle on opposite verdicts |
| `ReferenceOrder.SettledIsFinal` | crates/index-core/src/lib.rs:710-770 | What any visits settle on, one pass over the bindings in some order settles on |
| `ReferenceCoherence.CoherentIsUndisputed` | crates/index-core/src/lib.rs:710-770 | A question that has a coherent world has no disputed name, so its verdicts do not depend on the order |
| `ReferenceOrder.UndisputedVerdicts` | crates/index-core/src/lib.rs:710-770 | Without such a name the settled verdicts are the two closures of the input, whatever the order |
| `ReferenceLimits.OrderMatters` | crates/index-core/src/lib.rs:751-756 | One name re-exported through two documents: two orders that visit document by document, pass by pass, settle on opposite verdicts about its importer |
| `ReferenceAnswer.CompleteDefault` | crates/index-core/src/lib.rs:771-787 | Complete for a default export: every possible binding classified, narrowed documents equal identity documents, within the limit |
| `ReferenceAnswer.CompleteNamed` | crates/index-core/src/lib.rs:789-853 | Complete for a named export: every binding reached, every occurrence proven or separate, narrowed documents other than the declaration's are identity documents |
| `ReferenceTruth.VerdictsAreTrue` | crates/index-core/src/lib.rs:696-770 | In every world proven bindings lead to the declaration and separate ones do not |
| `ReferenceNarrowed.NarrowedCovers` | crates/index-core/src/lib.rs:831-849 | In every world of which the separate verdicts are true, as `VerdictsAreTrue` says they are, a narrowed list of a named export, of a complete answer or not, holds the declaration's document and every document with an occurrence that does not mean something else |
| `ReferenceNarrowed.UndisputedAnswerIsIdeal` | crates/index-core/src/lib.rs:771-853 | Without a disputed name the answer, complete or not, is a function of chains in the input alone: what is listed has an occurrence that is not foreign or is the declaration's, and a list is empty exactly when it would pass the limit or narrow nothing |
| `ReferenceWorlds.ReferringIsPossible` | crates/index-core/src/lib.rs:605-669 | In every guarded world whatever leads to the declaration is possible |
| `ReferenceScope.CoversEveryWorldExactly` | crates/index-core/src/lib.rs:605-669 | The first loop covers every world, or every coherent one, exactly when no source it passes over for its names imports what a re-export that may refer there exports |
| `ReferenceScope.MayReferExactly` | crates/index-core/src/lib.rs:605-669 | What may refer in all or in the coherent worlds, computed from the bindings with the name filter dropped, is what refers in some such world, and one such world has all of it refer |
| `ReferenceScope.CoherentWorldsExist` | crates/index-core/src/lib.rs:605-669 | A question has a coherent world exactly when no re-export is named as a declaration and all re-exports of a name may import what a unique one of them does |
| `ReferenceTruth.CompleteDefaultExactly` | crates/index-core/src/lib.rs:771-787 | A complete default answer names exactly the referring documents in every coherent world exactly when each binding that may refer in one shares its document with one that refers through unique sources alone, or with the declaration; given a coherent world, the answer is those documents |
| `ReferenceTruth.CompleteDefaultInEveryWorld` | crates/index-core/src/lib.rs:771-787 | The same over all worlds, coherent or not, where no name is disputed |
| `ReferenceLimits.OnlyIncoherentWorldsRefer` | crates/index-core/src/lib.rs:605-669 | A concrete input on which a binding refers in some world and in no coherent one, so the two conditions part |
| `ReferenceLimits.DefaultCanMissHiddenImporter` | crates/index-core/src/lib.rs:618-620 | A concrete default export whose complete answer misses a document in one world |
| `ReferenceLimits.NarrowedCanMissIdentity` | crates/index-core/src/lib.rs:831-849 | A concrete input on which the settled verdicts give a complete answer whose narrowed documents miss an identity document |
| `ReferenceLimits.NarrowedDropsExactly` | crates/index-core/src/lib.rs:789-849 | Where no name is disputed, a complete answer drops an identity document exactly when it is not the declaration's, has an occurrence under a name of a binding that a chain from the declaration proves, and each of its occurrences is unqualified under a name of another binding or of an independent declaration, or qualified by an external module |
| `ReferenceLimits.NarrowedCoversExactly` | crates/index-core/src/lib.rs:789-849 | Narrowing keeps every identity document exactly when no document is dropped so |
| `ReferenceLimits.CompatibleIsByProof` | crates/index-core/src/lib.rs:789-849 | Given a coherent world no name is disputed, and the proven bindings are those that refer through unique sources alone |
| `ReferenceBindings.ResolveReferenceBindingSources` | crates/index-core/src/lib.rs:472-509 | In place, every binding becomes what the relative rule makes of it |
| `ReferenceBindings.RelativeResolutionCountsDocuments` | crates/index-core/src/lib.rs:488-507 | Unique, unresolved and ambiguous count the candidate documents that exist: one, none, more |
| `ReferenceBindings.ApplyReferenceSourceResolutions` | crates/index-core/src/lib.rs:511-571 | In place, every binding is overlaid as the votes on its key decide |
| `ReferenceBindings.OverlayFollowsAgreement` | crates/index-core/src/lib.rs:524-570 | A unique source stands; another is overlaid exactly when the usable resolutions agree; resolution and payloads stay consistent |
| `ReferenceBindings.VoteIsAgreement` | crates/index-core/src/lib.rs:542-551 | The table entry of a key is its target exactly when every usable resolution for it names that target and one does |
| `RelativeSources.RelativeSourceUriCandidates` | crates/index-core/src/relative_binding_sources.rs:3-44 | The string-building loops compute the candidate list of the specification |
| `RelativeSources.CandidatesAreDistinct` | crates/index-core/src/relative_binding_sources.rs:29-43 | No two candidates are equal |
| `RelativeSources.CandidatesAreNormal` | crates/index-core/src/relative_binding_sources.rs:18-28 | Candidates are normal paths: splitting and walking one again leads to itself |
| `RelativePaths.CandidatesClimb` | crates/index-core/src/relative_binding_sources.rs:3-44 | From a document in a directory, a specifier that climbs k levels and then descends has the candidates of the path that drops the last k directories and adds the encoded segments; with fewer than k directories it has none |
| `RelativePaths.FollowCancels` | crates/index-core/src/relative_binding_sources.rs:18-28 | Anywhere in a walk a segment and the `..` behind it cancel |
| `RelativePaths.FollowSkips` | crates/index-core/src/relative_binding_sources.rs:18-28 | Anywhere in a walk an empty segment and `.` do nothing |
| `RelativePaths.DecodingRestores` | crates/index-core/src/relative_binding_sources.rs:46-56 | Percent encoding loses nothing: every byte is read back from it |
| `ClassBase.AnswerRefines` | crates/index-core/src/class_binding_snapshot_resolution.rs:141-296 | Under any conservative mode `NoBase` and `Resolved` are the fresh-source answer |
| `ClassBase.ResolveCurrentSources` | crates/index-core/src/class_binding_snapshot_resolution.rs:57-100 | Unknown, or the fresh answer on the current sources; admitted exactly by generation, bound and distinct requested URIs |
| `ClassBase.ResolveClassBaseBindingSnapshot` | crates/index-core/src/class_binding_snapshot_resolution.rs:15-49 | Unknown, or the unrestricted answer on the overlaid metadata; explicit sources only when admitted |
| `ClassBase.FullEvidenceIsFresh` | crates/index-core/src/class_binding_snapshot_resolution.rs:258-268 | Evidence about every candidate loses nothing: the answer is the fresh one even where that is Unknown |
| `ClassBase.SupportIsGrounded` | crates/index-core/src/class_binding_snapshot_resolution.rs:227-296 | Support lies in the supplied documents and includes the asking and the declaring document, where the class stands |
| `ClassWalk.WalkIsTrail` | crates/index-core/src/class_binding_snapshot_resolution.rs:201-287 | The walk resolves exactly what ends a trail of at most 32 hops, supported by exactly the documents on it |
| `ClassWalk.TrailNeverRepeats` | crates/index-core/src/class_binding_snapshot_resolution.rs:203-205 | A trail to a declaration never comes back, so the visited set only ends cycles |
| `ClassScopes.HopExactly` | crates/index-core/src/class_binding_snapshot_resolution.rs:227-296 | What a document says about a name is what the name means: the only class or import of that name in a usable document, directly exported when asked from outside; else what the only import (from outside: re-export) of that local name calls its imported name, in its only source |
| `ClassScopes.AnswerExactly` | crates/index-core/src/class_binding_snapshot_resolution.rs:141-296 | The answer is `NoBase` exactly when the one class named at the position has no base, and a class exactly when the base's name leads to it through at most 32 such names, supported by the documents on the way |
| `ClassBase.Resolver.Resolve` | crates/index-core/src/class_binding_snapshot_resolution.rs:202-287 | The recursive method with its growing fields follows the walk, whose hops `ClassScopes.HopExactly` says independently; the support reported is the field's |
| `ClassBase.ResolveDocuments` | crates/index-core/src/class_binding_snapshot_resolution.rs:141-190 | The asking document, the class at the position and its base, then the walk; `ClassScopes.AnswerExactly` says the answer as a chain of names |
| `ClassBase.Evidence` | crates/index-core/src/class_binding_snapshot_resolution.rs:75-87 | The availability table: refused exactly on a URI that is repeated or was not requested |
| `ClassHeritageLaws.ParsedHeritageIsValid` | crates/index-core/src/class_heritage.rs:33-57 | In a text whose token positions fit in 32 bits, parsed heritage passes storage validation and declarations stand apart in source order |
| `ClassHeritageLaws.ParsedHeritageIsValidExactly` | crates/index-core/src/class_heritage.rs:33-57 | Where declarations are shorter than 4 GiB and lines are numbered in 32 bits, parsed heritage passes validation exactly when no column that is a multiple of 2^32 falls between successive positions of a declaration on one line |
| `ClassHeritageLaws.ParsedProvenanceIsValid` | crates/index-core/src/class_binding_snapshot.rs:25-59 | In such a text, whatever the module scan's verdict, the provenance passes storage validation |
| `ClassHeritageLaws.WrappedNameIsInvalid` | crates/index-core/src/class_heritage.rs:33-57 | A class whose name ends at column 2^32: the parsed heritage fails validation |
| `ClassHeritageLaws.ClassesAreApart` | crates/index-core/src/class_heritage.rs:92-131 | A later class begins after an earlier one's body has closed |
| `ClassHeritage.ParseScannedClassHeritage` | crates/index-core/src/class_heritage.rs:78-131 | The scan gathers the classes at supported headers, as `ClassRecords.HeritageExactly` says over the tokens, and is complete exactly when every `class` and every `extends` is accounted for |
| `ClassRecords.HeritageExactly` | crates/index-core/src/class_heritage.rs:78-131 | The parse fails exactly when the delimiters are not well nested. Otherwise it records exactly the declarations of the supported form, in order: name and base are the texts of the tokens directly after `class` and after the `extends` that follows the name, with those tokens' ranges, and the declaration runs from the first modifier to the brace that shuts the body; it is complete exactly when every `class` and `extends` belongs to one |
| `ClassRecords.HeaderExactly` | crates/index-core/src/class_heritage.rs:133-225 | A header is found at a token exactly when a declaration of that form begins there: at depth 0, where a statement can begin, with only white space and comments between its tokens |
| `ClassRecords.TriviaExactly` | crates/index-core/src/class_heritage.rs:161-178 | A gap is skipped exactly when it is a sequence of white characters, line comments and block comments |
| `ClassRecords.ExportsExactly` | crates/index-core/src/class_binding_snapshot.rs:93-117 | Where positions fit, the provenance is supported exactly when the heritage is complete and the module syntax was understood, and then lists the names of exactly the classes whose declarations begin with `export` |
| `ClassHeritage.IsTrivia` | crates/index-core/src/class_heritage.rs:161-178 | The comment-skipping loop decides white space and comments |
| `ClassHeritage.FindDeclarationStart` | crates/index-core/src/class_heritage.rs:180-191 | The loop stops at the first of the modifiers directly before the class |
| `Delimiters.DelimitersMatchExactly` | crates/index-core/src/class_heritage.rs:227-252 | The stack scan succeeds exactly on streams with a well-nested matching, finds that matching, the only one, and each depth is the number of enclosing pairs |
| `Delimiters.DelimiterStructure` | crates/index-core/src/class_heritage.rs:227-252 | The loop with its stack computes the specified scan |
| `LineIndex.PositionsIncreaseExactlyWhenTheyFit` | crates/index-core/src/line_index.rs:20-33 | Positions are strictly increasing on all character boundaries exactly when every line and column number fits in 32 bits |
| `LineIndex.PositionOf` | crates/index-core/src/line_index.rs:20-33 | The position of a boundary is its line and UTF-16 column, cut to 32 bits, in both the ASCII and the general branch |
| `LineIndex.ColumnIsUtf16` | crates/index-core/src/line_index.rs:26-31 | The column of a boundary is the length in UTF-16 of its line up to there, which holds no newline and begins after one or with the text |
| `LineIndex.Utf16OfIsRead` | crates/index-core/src/line_index.rs:26-31 | A scalar in UTF-16 is read back as it, and takes as many units as the column counts |
| `LineIndex.LineStarts` | crates/index-core/src/line_index.rs:9-18 | The byte scan finds exactly the boundaries after newlines |
| `LineIndex.ShortTextsFit` | crates/index-core/src/line_index.rs:32-32 | Line and column are bounded by the byte offset, so a text under 4 GiB fits |
| `LineIndex.LongLineWraps` | crates/index-core/src/line_index.rs:32-32 | In a line of 2^32 letters the first and the last boundary have the same position |
| `FailureRecovery.AtMostThreeRestartsInAnyWindow` | src/semantic/semantic-worker-failure-recovery.ts:72-93 | Under a monotone clock four successive restarts of any run take more than 180 seconds |
| `FailureRecovery.AtMostThreeAutomaticRestarts` | src/semantic/semantic-worker-failure-recovery.ts:43-47 | Between two points of a run with no healthy result on newer input there are at most three automatic restarts |
| `FailureRecovery.ProbesClimb` | src/semantic/semantic-worker-failure-recovery.ts:55-70 | Each half-open probe runs on a strictly larger input revision than every earlier one |
| `FailureRecovery.OpenCircuitRestarts` | src/semantic/semantic-worker-failure-recovery.ts:55-93 | After any events under a monotone clock, a reported failure restarts the Worker exactly when fewer than three logged restarts lie in the window and fewer than three automatic ones were spent since the last resetting result, whether or not the circuit is open, which the restart leaves as it is; the circuit closes exactly when explicit work comes on newer input and the window has room |
| `FailureRecovery.OpenCircuitCanRestart` | src/semantic/semantic-worker-failure-recovery.ts:76-93 | A run of two events that restarts the Worker while the circuit is open |
| `FailureRecovery.SettlingIsFinal` | src/semantic/semantic-worker-failure-recovery.ts:112-117 | Once stopping, no restart |
| `CircuitMemory.FlagExactly` | src/semantic/semantic-worker-failure-recovery.ts:29-93 | In every run the circuit is open exactly when a failure came after which no probe started; a probe is under way, and implicit work refused, exactly when one started after which no healthy result came on a closed circuit; a recovery is pending exactly when one began that has not ended |
| `CircuitMemory.NoteExactly` | src/semantic/semantic-worker-failure-recovery.ts:29-93 | In every run the failed input is the one the Worker was last lost on, and the blocked input the one on which the circuit last opened from closed or a probe last started |
| `CircuitMemory.InputCountsChanges` | src/semantic/semantic-worker-failure-recovery.ts:35-41 | In every run the input revision counts the changes except those that give a configuration the value it was last given |
| `FailureRecovery.SemanticWorkerFailureRecovery.DoWorkerFailed` | src/semantic/semantic-worker-failure-recovery.ts:76-93 | The handler on the object, with the expiring loop, as specified |
| `FailureRecovery.SemanticWorkerFailureRecovery.DoProbe` | src/semantic/semantic-worker-failure-recovery.ts:62-70 | The probe on the object |
| `FailureRecovery.SemanticWorkerFailureRecovery.DoAdmit` | src/semantic/semantic-worker-failure-recovery.ts:55-70 | An admission up to its wait: refused to implicit work while a probe runs, a probe when nothing is pending |
| `FailureRecovery.SemanticWorkerFailureRecovery.DoInputChanged` | src/semantic/semantic-worker-failure-recovery.ts:35-41 | The input revision moves except for a configuration equal to the known one |
| `FailureRecovery.SemanticWorkerFailureRecovery.DoHealthy` | src/semantic/semantic-worker-failure-recovery.ts:43-47 | A healthy result ends the probe and restores the budget when the input is newer than the failed one; an open circuit ignores it |
| `FailureRecovery.SemanticWorkerFailureRecovery.ExpireRateWindow` | src/semantic/semantic-worker-failure-recovery.ts:72-74 | The loop drops exactly the leading restarts older than the window |
| `Watchdog.SurvivorsAreWithinCaps` | src/semantic/semantic-worker-watchdog.ts:89-139 | A command that survives a check is within its caps, counted from its own sending and start, which the check did not renew |
| `Watchdog.CapsAreNeverRenewed` | src/semantic/semantic-worker-watchdog.ts:45-66 | No invalidation, synchronization, activity or check renews the start or sending time, and `settling` is final |
| `Watchdog.GraceIsRearmedAtMostOnce` | src/semantic/semantic-worker-watchdog.ts:112-118 | The policy moves the cancellation reference at most once, and then the command is settling |
| `Watchdog.ReportedExactly` | src/semantic/semantic-worker-watchdog.ts:89-139 | A checked command is reported exactly when it is overdue, under the first reason that applies: a corrupt cell; a cancelled read out of patience for the whole grace period, counted from the later of cancellation and last activity and suspended inside its commit; its own cap since its start; or, not started, that cap and the one for preparation since its sending |
| `Watchdog.CancellationIsNoticed` | src/semantic/semantic-worker-watchdog.ts:96-118 | A check notices the cancellation of a started read, at its own time, and moves that time only when a commit that was waited for is over |
| `Watchdog.CancelledReadIsReported` | src/semantic/semantic-worker-watchdog.ts:96-139 | A cancelled read that never commits is reported by the first check a grace period after the one that noticed it |
| `Watchdog.FirstOverdueIsReported` | src/semantic/semantic-worker-watchdog.ts:89-139 | A check over all commands reports the first overdue one, and only if there is one |
| `Watchdog.SemanticWorkerWatchdog.Check` | src/semantic/semantic-worker-watchdog.ts:89-139 | The loop updates every entry or reports the first overdue one and clears the table |
| `Watchdog.SemanticWorkerWatchdog.Sent` | src/semantic/semantic-worker-watchdog.ts:41-44 | A sent command gets a new entry and disturbs no other |
| `Watchdog.SemanticWorkerWatchdog.Invalidate` | src/semantic/semantic-worker-watchdog.ts:45-52 | Exactly the named entry is invalidated, and one that is settling is left alone |
| `Watchdog.SemanticWorkerWatchdog.Execution` | src/semantic/semantic-worker-watchdog.ts:53-66 | Exactly the named entry notes its start or its synchronization, which moves a waiting commit to settling |
| `Watchdog.SemanticWorkerWatchdog.Settled` | src/semantic/semantic-worker-watchdog.ts:67-87 | Exactly the answered entry leaves |
| `Recycle.RecoveryRestoresAuthority` | src/semantic/semantic-worker-recycle.ts:127-149 | Whatever edits, opens and closes arrive during a recovery, when the flush loop finds the list empty the new Worker's documents are the parent's |
| `Recycle.RecoveredExactlyWhenGapIsIdle` | src/semantic/semantic-worker-recycle.ts:149-164 | After the loop's caller resumes, they are the parent's exactly when the edits deferred in between change nothing |
| `Recycle.GapLosesAnEdit` | src/semantic/semantic-worker-recycle.ts:158-160 | A concrete run in which a document opened in that gap is unknown to the recovered Worker |
| `Restart.RecoveredStaysInAuthority` | src/semantic/semantic-worker-recycle.ts:127-164 | After a recovery with an idle gap the Worker's documents are the parent's for as long as the parent does not fail, whatever is edited, opened or closed |
| `Restart.AnswersAreFreshAfterRecovery` | src/semantic/semantic-worker-recycle.ts:142-149 | In a system begun by the recovery, once a root's supervisor has accepted what was issued to it, a published answer was computed on exactly the parent's documents of that root |
| `Restart.IssuedIsHeld` | src/semantic/semantic-worker-recycle.ts:142-149 | In every run the new Worker holds what was issued to it: replayed opens, flushed edits, later edits |
| `Restart.FoldIsOwned` | src/semantic/semantic-worker-host.ts:115-122 | Folding the mutations issued to one root gives that root's part of the documents |
| `Recycle.ReplayIsIdempotent` | src/semantic/semantic-worker-host.ts:115-122 | Replaying edits over buffers that include them changes nothing |
| `Recycle.DeferringAppends` | src/semantic/semantic-worker-recycle.ts:106-125 | Deferring, with its tail coalescing, means one more edit at the end |
| `Recycle.SemanticWorkerRecycle.Defer` | src/semantic/semantic-worker-recycle.ts:106-125 | The list after deferring, and the overflow exactly when it would pass 32 records or the text bound |
| `Recycle.SemanticWorkerRecycle.Finish` | src/semantic/semantic-worker-recycle.ts:158-160 | The recovery ends and drops what is still deferred |
| `DeferredEdits.DeferredStaysCompact` | src/semantic/semantic-worker-recycle.ts:106-125 | In every run of a recovery no deferred record is a change that only carries on the record before it |
| `DeferredEdits.FailsExactly` | src/semantic/semantic-worker-recycle.ts:106-125 | Outside its own steps a recovery fails exactly when it is made to or has no room, 32 records and 4 MiB of text, for what the Worker is to be told; what it has room for becomes the end of the list |
| `DeferredEdits.RecoveryEnds` | src/semantic/semantic-worker-recycle.ts:127-164 | From every state of a recovery, if nothing else happens, it is over after a number of steps its state tells: recovered exactly when it has not failed |
| `Host.AtMostOneWorkerInEveryRun` | src/semantic/semantic-worker-host.ts:161-205 | In every run at most one Worker thread runs, and one is started only when none does |
| `Host.RetirementEndsWithExit` | src/semantic/semantic-worker-retirement.ts:12-35 | A Worker in retirement is given up exactly when a stop that was asked for settles after its exit; until then it stays the one in retirement |
| `Host.WorkerIsHandedOver` | src/semantic/semantic-worker-host.ts:161-191 | The Worker at hand stays until it is replaced or the host disposed, and is then the one in retirement, with its stop asked for |
| `Host.StopIsAskedExactly` | src/semantic/semantic-worker-retirement.ts:23-35 | A stop that was rejected before the exit is asked for again only by a retry or a disposal |
| `Host.RootIsRegisteredExactly` | src/semantic/semantic-worker-host.ts:77-109 | A root is registered exactly when it was already, or the host is not disposed and no Worker is in retirement |
| `Host.RetirementGivesWay` | src/semantic/semantic-worker-host.ts:161-205 | From every state of every run a retirement that is retried after its thread ended gives way to a new Worker and a new root |
| `Host.EpochsAreNeverReused` | src/semantic/semantic-worker-host.ts:77-109 | A root that is registered gets an epoch larger than any epoch any root held before in the run |
| `Host.SemanticWorkerHost.Supervisor` | src/semantic/semantic-worker-host.ts:77-109 | An existing root keeps its epoch; a new one gets the next, unless the host is disposed or an old Worker has not exited |
| `Host.SemanticWorkerHost.Replace` | src/semantic/semantic-worker-host.ts:161-191 | The current Worker moves into retirement, once |
| `Host.SemanticWorkerHost.StopEnded` | src/semantic/semantic-worker-retirement.ts:23-35 | A stop that settled ends the retirement only after the exit; a rejected one keeps it and records the failure |
| `InFlight.AbortedExactlyWhenLastWaiterLeaves` | src/lsp/in-flight-request-coalescer.ts:71-76 | An operation becomes aborted exactly when its last waiter leaves before it has settled |
| `InFlight.NobodyJoinsAnAbortedOperation` | src/lsp/in-flight-request-coalescer.ts:15-38 | A new waiter joins an operation that is not aborted; an aborted one stays without waiters |
| `InFlight.EqualRequestsShare` | src/lsp/in-flight-request-coalescer.ts:15-38 | In every run a request starts an operation exactly when no operation of its key has a waiter; otherwise it joins the one that has |
| `InFlight.InFlightRequestCoalescer.Join` | src/lsp/in-flight-request-coalescer.ts:15-38 | Joins the operation in flight or starts one |
| `InFlight.InFlightRequestCoalescer.Release` | src/lsp/in-flight-request-coalescer.ts:71-76 | The last waiter takes the operation out and aborts it when it has not settled |
| `InFlight.InFlightRequestCoalescer.Settled` | src/lsp/in-flight-request-coalescer.ts:64-69 | Settling an operation of a valid table removes nothing: it left with its last waiter |
| `Coordinator.DrainIsLossless` | src/lsp/workspace-file-change-coordinator.ts:82-123 | Whatever events arrive, the next drain marks the root and domain of each dirty or lists its path with its last kind |
| `Coordinator.DrainedBatchesMeetCodec` | src/semantic/semantic-worker-workspace-mutation-codec.ts:44-55 | Every drained batch meets the codec's flag, non-emptiness and count rules |
| `Coordinator.NoEventIsLost` | src/lsp/workspace-file-change-coordinator.ts:125-184 | The pending table stays within its bound, shows the last event of each path and, with the dirty marks, covers every event |
| `Coordinator.DirtyRootIsNamed` | src/lsp/workspace-file-change-coordinator.ts:84-97 | A dirty root is reported under its own URI exactly when the last root of that canonical path has that URI, as when no two roots are one directory |
| `CoordinatorMarks.CleanRootIsNamed` | src/lsp/workspace-file-change-coordinator.ts:97-114 | After any events a directory that is not dirty is reported exactly when an event counted for it, under the URI of the root of the first such event |
| `CoordinatorMarks.EveryRootIsNamed` | src/lsp/workspace-file-change-coordinator.ts:82-123 | When no two roots are one directory, every report is under its own root's URI, dirty or not |
| `CoordinatorMarks.MarkedExactly` | src/lsp/workspace-file-change-coordinator.ts:141-184 | After any events a root and domain is dirty exactly when its configuration changed or one of its paths met a full table, and its configuration counts as changed exactly when it did |
| `CoordinatorMarks.NothingIsInvented` | src/lsp/workspace-file-change-coordinator.ts:97-114 | Each change a report lists is the last event of one path of its root, and it says that resources changed only when one did |
| `Coordinator.AliasedRootIsMisnamed` | src/lsp/workspace-file-change-coordinator.ts:84-97 | Two roots that are one directory: an event of the first is reported under the second |
| `Coordinator.WorkspaceFileChangeCoordinator.AcceptOne` | src/lsp/workspace-file-change-coordinator.ts:125-168 | The handler on the object, as specified |
| `Coordinator.WorkspaceFileChangeCoordinator.Drain` | src/lsp/workspace-file-change-coordinator.ts:82-123 | The report on every root, and an empty table |
| `Coordinator.WorkspaceFileChangeCoordinator.MarkRootDirty` | src/lsp/workspace-file-change-coordinator.ts:176-184 | The mark is set and exactly that root and domain leave the table |
| `RequestInputs.PublishedResultsAreProven` | src/project/request-input-validation.ts:99-120 | If a guarded query publishes, every owner checked during it was captured in the epoch it still has, is intact, and all its facts matched lookups made after the body ended, however the file system changed |
| `RequestInputs.PublishesExactly` | src/project/request-input-validation.ts:99-120 | On a file system that stands still after the body a query publishes exactly when each checked owner is whole: in use, in the epoch it was captured in, with nothing failed or unprovable, and each fact as the file system has it |
| `RequestInputs.ChecksExactly` | src/project/request-input-validation.ts:86-96 | A check passes exactly an owner captured in one epoch alone that is whole, or that passed at this revision before and can still be scanned |
| `QuietLoads.QuietLoadsAreProven` | src/project/loaded-configuration-witness.ts:56-131 | On a file system at rest any loads within the capacity leave a new witness proven: every fact they stand for, directly, by a missing ancestor or by a directory's stamp, is as a later lookup finds it |
| `QuietLoads.QuietOwnerPasses` | src/project/request-input-validation.ts:86-96 | An owner that made only such loads passes every check |
| `QuietLoads.QuietQueryPublishes` | src/project/request-input-validation.ts:99-120 | A query whose owners made only such loads publishes |
| `RequestInputs.ScanConfirms` | src/project/loaded-configuration-witness.ts:263-300 | A scan without rejection or stale path confirms every fact by a lookup of its phase |
| `RequestInputs.SkippedCheckIsSameProof` | src/project/request-input-validation.ts:86-96 | A check skipped for an equal revision is about the very facts, failures and epoch that passed |
| `RequestInputs.FinalUnion` | src/project/request-input-validation.ts:109-111 | The final loop over the owners computes the specified union |
| `RequestInputs.RequestInputValidation.Publish` | src/project/request-input-validation.ts:107-119 | The query publishes exactly when the final union passes, and leaves no inputs behind |
| `RequestInputs.ScanWitness` | src/project/loaded-configuration-witness.ts:263-300 | The scanning loops compute the specified scan |
| `RequestInputs.RequestInputValidation.Validate` | src/project/request-input-validation.ts:86-96 | Skip, scan or refuse, and what is remembered |
| `RequestInputs.RequestInputValidation.Lookup` | src/project/request-input-validation.ts:67-83 | A shared lookup, kept only within the byte budget |
| `ConfigurationWitness.ObservingNeverRestamps` | src/project/loaded-configuration-witness.ts:56-131 | Observing adds at most the fact the load consumed; a load that disagrees leaves every fact alone and the witness rejecting |
| `ConfigurationWitness.LoadIsOnRecord` | src/project/loaded-configuration-witness.ts:56-131 | After a load its fact is on record as the load saw it, or the witness rejects |
| `WitnessMemory.MarkedExactly` | src/project/loaded-configuration-witness.ts:133-228 | In every run a witness is unprovable, unmendable, without a source to answer for it, has a failed read, or counts a fact as the compiler's or a regular source's, exactly when some action brought that about after which none lifted it |
| `ConfigurationWitness.OnlyAuthorityReplacesFacts` | src/project/loaded-configuration-witness.ts:162-228 | Only an authoritative changed-source read replaces a fact, about its own path; only a reset or a retirement drops one, and both begin a new epoch |
| `ConfigurationWitness.RevisionTracksProof` | src/project/loaded-configuration-witness.ts:56-228 | While the revision stands still, so do the facts, the failed reads, the epoch and the verdict |
| `ConfigurationWitness.LoadedConfigurationWitness.DoObserve` | src/project/loaded-configuration-witness.ts:56-85 | A content load on the object, as specified |
| `ConfigurationWitness.LoadedConfigurationWitness.DoObservePath` | src/project/loaded-configuration-witness.ts:97-131 | A path or presence lookup on the object, as specified |
| `ConfigurationWitness.LoadedConfigurationWitness.DoChangedRead` | src/project/loaded-configuration-witness.ts:196-228 | An authoritative read: ignored for an unknown source, a failed read kept as such, or the facts of that path restamped |
| `ConfigurationWitness.LoadedConfigurationWitness.DoRetire` | src/project/loaded-configuration-witness.ts:177-193 | The loop drops exactly the affected facts |
| `ConfigurationWitness.LoadedConfigurationWitness.DoReset` | src/project/loaded-configuration-witness.ts:162-175 | A reset drops everything and begins a new epoch |

## Left out

- Protocol.PublishedAnswersAreFresh: one root and one epoch; the Worker's maps shared between roots, and control messages, are not part of the model. A message may arrive after termination began, which the source prevents by removing its listener.
- Envelope.AdmittedReadEncodes: one root under one epoch, both constants; a read's input is its byte count, checked as the queue checks it.
- The cancellation cell is the datatype `Cell`; a corrupted shared cell is modelled only in `Watchdog`.
- CanonicalJson.Canonicalize: containers seen twice, prototypes and property descriptors are folded into one flag of a node; freezing and copying are not modelled.
- Argument checks of `mutate` and `request` that throw `invalid-request` before any state changes.
- SupervisorObject.RootSemanticWorkerSupervisor.DoMutate: the text total it starts from is required to be that of its queue, which `ParentLaws.HandleSound` keeps in every run.
- ReferenceTruth.ProveReferenceBindingChain: identity and narrowed documents are sets; their sorted order is not modelled. A table from document to names is the set of its pairs.
- The stores that feed the prover: alias closure, admission by root and document selection.
- ClassBase.ResolveDocuments: sources arrive parsed; documents whose parse fails are documents without facts.
- ClassHeritage.ParseScannedClassHeritage: the tokenizer and the module syntax scan are not part of this model; the scan's verdict is a parameter.
- Watchdog.SemanticWorkerWatchdog.Settled: whether a reply matches its command is a parameter; the callback on a healthy result is not modelled.
- Restart.AnswersAreFreshAfterRecovery: the root of a document is a function of its URI; what a root's supervisor has accepted is related to what was issued, and the steps of both runs are not interleaved.
- ClassHeritageLaws.ParsedHeritageIsValidExactly: declarations of 4 GiB and more, and texts with 2^32 lines, are left out.
- ReferenceLimits.NarrowedDropsExactly: with a disputed name the verdicts depend on the order of the bindings, and the law is stated on the verdicts alone (`NarrowedDropsByVerdicts`, and `ReferenceTruth.ExactWhenNamed` for default exports).
- Host.SemanticWorkerHost.Supervisor: the drain of old supervisors is one step; routing of messages by epoch is represented by the epochs alone.
- Recycle.RecoveryRestoresAuthority: models `recover`; the pressure recycle `run`, which rejects a recycle during which anything changed and flushes again, is not modelled. Documents carry no root, so a document moved between roots with equal text and version counts as unchanged, as in the source.
- Coordinator.WorkspaceFileChangeCoordinator.Drain: batches are keyed by root; their order is not modelled.
- RequestInputs.PublishedResultsAreProven: `checkpoint` callbacks, the callback on stale paths and the retained configuration capsule are not modelled; a preparation is a query that starts with inputs and lookups.
- ConfigurationWitness.LoadedConfigurationWitness.DoObserve: lookups are values; how an identity is read and stamped is not modelled. The nesting depth of compiler probes is a flag of each action.
- InFlight.InFlightRequestCoalescer.Release: the promise plumbing around waiters is not modelled.
- Cache directories, logging, completion tickets, result mappers and ranking: they would add only easy members.
