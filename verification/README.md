# A verified model of the durable agent dispatch of vde-tmux

vde-tmux dispatches prompts to coding agents in tmux panes and keeps a private
state directory about it: runs, dispatch operations, staged prompts and
response bodies. This project models that state machine in Dafny 4.11 and
proves what it promises, over every input, every history of durable writes and
every point at which the daemon can be stopped. Two smaller parts of the
repository, the git probe cache and the bounded transcript reader, are modelled
the same way: a fast form against a simple definition.

`dafny verify dfyconfig.toml` checks everything.

## How the model is built

The state directory is a value (`Protocol.Disk`: metadata and four maps). The
program changes it by nine kinds of atomic writes (`Protocol.Write`). The class
`AgentStateStore` keeps, next to the directory and its cached counters, a ghost
`journal`: the history of all writes that ever made the directory what it is.
Its method `Durable` is the only place that changes the directory, and it
extends the journal by exactly one write. A crash between two writes is
therefore a cut of the journal.

A write is lawful when it keeps the records in order (`BaseLawful`) and when it
keeps runs and operations properly linked (`LinkLawful`). Every call of the
store and the runtime is proved against an outcome: a function in `Outcomes`
that gives its answer, refusals included, and the directory it leaves. What a
call decides and what it writes is stated once more in the fields of the
records, in ghost predicates no code computes with (`RunSteps.AccountsFor`,
`Indexes.SentPrompt`, `Retention.GoneForCause`, `Restart.RestartedAs`,
`Recovery.NothingChanged` and the like). Beside that, each contract says what
survives:

- `AgentRuntime.Valid`: the history is base-lawful, and each in-memory index is
  exactly what a scan of the directory gives. Every call keeps it but one:
  `CapacityFailure` loses it exactly when it stores a reference that another run
  already holds.
- `AgentRuntime.Trusted`: the history is also link-lawful, and every run that
  claims an operation is pointed back at by it. Any other call loses it only when
  a confirmation is refused for lack of room. From then on each contract says
  exactly when the links survive the next call (`RunSteps.KeepsClaims`).

A directory is openable (`Restart.Openable`) when every stored claim is settled
or can be confirmed, and no operation is claimed twice. `OpenRuntime` takes any
base-lawful directory, cut anywhere: with room for what a restart has to write
it succeeds if and only if the directory is openable; without it, a refusal
names the record for which there was no room. `ReopenAfterCrash` says this of a
running daemon, `Restart.SoundIsConfirmable` that links imply openability and
`Wedge.WriteKeepsOpenable` exactly which writes keep it.

| file | models |
|---|---|
| `Base`, `Records` | texts, digests, errors; the records and their validity rules |
| `Guards` | what a stored record may be replaced by |
| `Reducer` | how one provider hook changes one run |
| `Framing` | the length-prefixed request fingerprint |
| `Regions`, `Retention`, `Artifacts` | counting, run retention, body eviction |
| `Protocol`, `Lifecycle` | the directory, lawful writes, theorems over histories |
| `Dispatch`, `RunSteps` | the record changes the runtime makes, and that the guards accept them |
| `Indexes`, `RunIndex` | the six in-memory indexes |
| `Validity`, `Verdicts`, `Outcomes` | what a record must satisfy and may replace, check by check; when it is accepted; what every call answers and leaves |
| `Store` | `AgentStateStore`: guarded, counted writes; retention; eviction; opening |
| `Upkeep`, `Runtime` | `AgentRuntime`: dispatch, hooks, restart |
| `Opening`, `Restart` | what opening checks and cleans; what a restart settles, and when it can |
| `Recovery` | operator completion as a compare-and-set |
| `Reset` | the resumable offline reset |
| `Wedge` | which writes make a directory impossible to open |
| `Encoding`, `Instances`, `Collision` | the length of a record's JSON; concrete runs of the program in which a property fails |
| `Probe`, `Transcript` | the git probe cache and grouped poll; the bounded transcript tail |

## What the code does not promise

Five expectations turn out to hold only under a condition. The model follows
the code; each condition is stated exactly.

- **The reference rotation is never stored.** The reducer gives up one
  `prompt_updated` reference when a seventeenth is needed, and its own unit test
  expects that. The store compares references position by position and refuses
  every such record. `Reducer.ReducerMeetsGuard`: a reduced run is accepted if
  and only if no reference was given up; `Instances.RotationInstance` is a run
  where one is.
- **Rejecting a claimed operation makes the directory impossible to open.**
  `settle_dispatch` does not look for a run that already claims the operation;
  such a run can exist when a confirmation was refused for lack of room.
  `Wedge.RejectionBlocksOpening`: after the rejection an openable directory is
  openable if and only if no stored run claims the operation.
  `Wedge.LostClaimPersists`: no write but removing that run repairs it.
  `Instances.RejectionInstance` reaches such a directory from an empty one.
- **An operation can be credited twice.** In the same situation
  `matching_operation` does not look for a stored claim either, so the next
  epoch of Codex can claim the operation again. `RunSteps.CreditIsLawful`: a
  credit keeps the links if and only if no stored run claims the operation;
  `Instances.SecondCreditInstance` is a run that is credited second.
- **A capacity failure can store a duplicate reference.** Its reference hashes
  `session:turn` without framing. `RunSteps.CapacityRefsCollide` gives two
  different turns with one reference; the contract of `CapacityFailure` says
  that the call keeps the directory sound exactly when no other run holds the
  reference, and otherwise answers corrupt with the record on disk;
  `Collision.CollisionInstance` is such a run. Nothing the store accepts takes
  the shared reference away again, short of removing one of the two runs
  (`RunSteps.SharedReferencePersists`), and while it is there opening answers
  corrupt unless an earlier check fails (`Runtime.OpenIndexed`).
- **A repeated capacity failure is a no-op only up to the last observation.**
  After it the record changes without a new revision, which the store refuses as
  a conflict (`RunSteps.RepeatedFailure`).

## Assumptions about callers

They appear as preconditions of `ApplyProviderObservation`: random identifiers
are fresh; a hook without a provider reference has an ingress identifier no run
holds; a run sequence used for a new run is larger than every stored one of the
same binding, or is refused by the current run. SHA-256 (section 6.2 of FIPS
180-4) is represented by its input, so equal digests mean equal inputs; keys
that the program hashes are represented by the hashed tuple. Encoded sizes,
UTF-8 validity and the hexadecimal form of a digest are arbitrary functions
(`Records.Codec`). The clock is a parameter.

## Model

| member | source | states |
|---|---|---|
| Framing.FrameInjective | src/agent_state/runtime.rs:112-123 | no two lists of fields share a length-prefixed frame |
| Framing.FingerprintInjective | src/agent_state/runtime.rs:107-123 | two requests share a fingerprint if and only if target, prompt digest and option agree |
| Lifecycle.RepeatedRequest | src/agent_state/runtime.rs:125-174 | at any later point of any history a repeated identifier matches the stored record if and only if all three request fields are the original ones |
| Lifecycle.OperationNeverRegresses | src/agent_state/store.rs:1327-1424 | over any history an operation stays stored, keeps its request and target and only moves up in rank; equal rank means the same record, and terminal records are final |
| Guards.ReplacementAdvances | src/agent_state/store.rs:1327-1424 | every accepted replacement strictly raises the rank, starts from a fenced non-terminal record, keeps the dispatch target and never raises a fence |
| Guards.OperationLifetime | src/agent_state/store.rs:1372-1423 | an operation is stored at most four times with revisions 1 to 4, is dispatch-started at most once, changes its binding only by confirmation, and nothing follows Confirmed, Rejected or Abandoned |
| Guards.RunHistoryMonotone | src/agent_state/store.rs:1209-1325 | every later stored value of a run keeps identity, resolution and completion, keeps each reference at its position with everything but its retry count and last observation, never lowers one of the five counters or a time, and moves the revision until it saturates; an expired artifact stays expired |
| Reducer.AppendProviderReference | src/agent_state/reducer.rs:242-295 | the in-place append with its search for a replaceable reference equals the specification function, including both refusals |
| Reducer.ApplyObservation | src/agent_state/reducer.rs:65-157 | the step-by-step update of the record equals the specification function on every input, including all refusals |
| Reducer.ReduceChange | src/agent_state/reducer.rs:65-157 | what one hook can do to a run: which reference changed and how, identity and artifact kept, revision up by one, never active again, an existing resolution untouched |
| Reducer.HookMeaning | src/agent_state/reducer.rs:88-157 | phase, counters, resolution, observation window and appended reference each hook kind leaves |
| Reducer.HookReference | src/agent_state/reducer.rs:65-157 | a known prompt or stop only counts one more delivery of it; a new one comes last, with its own reference or ingress identifier, its payload and the revision it met; any other hook leaves no reference |
| Reducer.HookRefusals | src/agent_state/reducer.rs:65-100 | a hook of another agent, session or turn, the start of a session, and a known reference with another payload are refused |
| Reducer.ReducerMeetsGuard | src/agent_state/store.rs:1246-1281 | the store accepts the reduced run if and only if no reference was given up at the cap |
| Instances.RotationInstance | src/agent_state/reducer.rs:242-295 | a run with sixteen references, one of them a prompt update: the reducer gives that one up for a new prompt, and the store refuses the result |
| RunSteps.NewRunShape | src/agent_state/reducer.rs:21-63 | a new run carries the drawn identifier, binding, sequence and operation, is active, was born of this hook and holds at most its reference |
| Reducer.HookStarts | src/agent_state/reducer.rs:21-63 | only a prompt, or activity in a Codex turn, starts a run; a prompt leaves exactly its own reference at revision 1, an activity none |
| Regions.TotalAfterPut | src/agent_state/store.rs:1609-1629 | writing one record moves the byte sum by the difference of the two sizes |
| Regions.NextCapacity | src/agent_state/store.rs:1609-1629 | the saturating arithmetic grants room if and only if count and byte sum stay within the limits |
| Verdicts.CountersDecide | src/agent_state/store.rs:236-268 | with true counters the check passes if and only if the region with the record fits, and the new counters are again the true ones |
| Verdicts.ScanRegion | src/agent_state/store.rs:1642-1680 | a directory scan in any order gives the record count and the byte sum, and is given up exactly beyond the record limit |
| Store.AgentStateStore.SaveRun | src/agent_state/store.rs:236-268 | invalid if and only if one of the checks written out fails, a conflict if and only if a stored run would lose its identity, resolution, completion, counters, references or response, and otherwise refused exactly when there is no room; one write or none; counters stay true |
| Store.AgentStateStore.SaveOperation | src/agent_state/store.rs:312-348 | invalid if and only if one of the checks written out fails, a conflict if and only if the change is not one of the seven permitted steps or touches the request, and otherwise refused exactly when there is no room; one write or none; counters stay true |
| Store.AgentStateStore.StageBody | src/agent_state/store.rs:398-425 | the exact verdict: the same body again is accepted whatever the limits, another one is a conflict, a new one is refused exactly when it is over a limit |
| Retention.PlanRetention | src/agent_state/store.rs:681-776 | the planned set is exactly the runs that may go and are older than thirty days, or have a full pane of newer ones, or are needed for the reserve once all of those and every older run are gone; a capacity error if and only if all that may go together do not make room |
| Retention.FindPaneExcess | src/agent_state/store.rs:723-745 | pane by pane, exactly the runs with a full limit of newer ones |
| Retention.RetentionIsSafe | src/agent_state/store.rs:681-776 | no active or protected run goes, every over-age removable run goes, and a record within the reserve then fits |
| Retention.RemovedForCause | src/agent_state/store.rs:681-776 | run by run, in creation times, pane counts and sizes: a run goes if and only if it is ended and unprotected and there is one of these three causes |
| Retention.PaneKeepsLimit | src/agent_state/store.rs:731-745 | at most 64 removable runs stay per pane, 63 on the incoming pane with a protected run |
| Retention.PaneOldestFirst | src/agent_state/store.rs:731-770 | on one pane no removable run outlives a newer removable one |
| Retention.RemovesIsUnique | src/agent_state/store.rs:681-776 | one set only satisfies the description of what a pass removes, so the pass is determined by the directory |
| Store.AgentStateStore.CollectRunRetention | src/agent_state/store.rs:681-776 | the pass deletes exactly the runs that have one of the three causes to go, and their bodies, or fails exactly when all that may go do not make room and then deletes nothing |
| Store.AgentStateStore.RemoveRuns | src/agent_state/store.rs:972-1000 | records go before bodies, each removal is lawful, and the counters are again the true ones |
| Artifacts.ExpiryIsAccepted | src/agent_state/store.rs:660-679 | expiring an artifact is an admissible replacement at every revision |
| Store.AgentStateStore.ExpireArtifact | src/agent_state/store.rs:660-679 | the record stops naming the body before the body is deleted; refused exactly when the store has no room for the expired record |
| Store.AgentStateStore.EnsureArtifactCapacity | src/agent_state/store.rs:912-970 | terminates; gives up a body only if, with everything resolved earlier given up, the new one still does not fit in 4096 files and 64 MiB, and on success every such body; never touches the target; stops short only when nothing is left to evict or the store refuses the next expired record |
| Store.AgentStateStore.StoreArtifactCandidate | src/agent_state/store.rs:523-628 | refused if the transported body is not intact; a different response is a conflict; a stored or expired artifact is final; otherwise the run records exactly this response, its body is stored if and only if there is room after the eviction, and only evicted runs changed besides |
| Store.AgentStateStore.ReadArtifact | src/agent_state/store.rs:630-658 | on a lawful directory a body is readable if and only if the run names it, it matches its digest, and nothing is ever reported corrupt |
| Protocol.WriteKeepsBase | src/agent_state/store.rs:1209-1424 | every base-lawful write keeps all invariants of the four record families |
| Protocol.WriteKeepsLinks | src/agent_state/runtime.rs:1238-1337 | every lawful write keeps runs and operations linked, at most one run per operation, also counting removed runs |
| Protocol.EveryCutIsRecoverable | src/agent_state/store.rs:1461-1489 | cut any lawful history after any write: the directory satisfies everything opening relies on |
| Protocol.AttributionIsSound | src/agent_state/runtime.rs:1238-1337 | a confirmed operation was confirmed by one run, created by a user-prompt hook with the dispatched digest, in the dispatched pane, process and server, in the expected turn or the first of the adjacent Codex epoch, not before the dispatch and not after abandonment |
| Protocol.ExclusionAtEveryCut | src/agent_state/runtime.rs:175-181 | at every cut at most one fenced operation per target and at most one active run per binding |
| Protocol.EndedStaysEnded | src/agent_state/reducer.rs:100-143 | over any base-lawful history a run keeps its identity and resolution, and once ended never becomes active again |
| Dispatch.ConfirmationIsAccepted | src/agent_state/runtime.rs:1269-1337 | once a run was credited, confirming passes the runtime's check and the store's guard, also with a pending session or an adjacent Codex epoch, and keeps the target |
| Dispatch.ConfirmationPassesGuard | src/agent_state/runtime.rs:1299-1331 | whatever confirmation the runtime computes, on any record it may find, the guard of the store accepts |
| Dispatch.StartIsAccepted | src/agent_state/runtime.rs:223-237 | marking a prepared operation always passes the guard |
| Protocol.ReceiptsTellTheTruth | src/agent_state/runtime.rs:1300-1331 | at any point of any lawful history the receipt of a confirmation says guarded window if and only if the hook that created the confirming run was observed by the deadline |
| Dispatch.SettlementIsAccepted | src/agent_state/runtime.rs:259-313 | every permitted settlement with a printable code passes the guard |
| Dispatch.AbandonmentIsAccepted | src/agent_state/runtime.rs:315-373 | abandoning an unsettled, unlinked operation with a valid reason passes the guard |
| Indexes.FenceAfterAdvance | src/agent_state/runtime.rs:296-301 | after any accepted change the fence index is again exactly the map of fenced operations |
| Indexes.StaleReleaseIsHarmless | src/agent_state/runtime.rs:375-381 | releasing an operation that holds no fence leaves every newer fence in place |
| Indexes.InputsAfter | src/agent_state/runtime.rs:704-718 | indexing one operation keeps the dispatch-input index exact, without empty groups |
| RunIndex.IndexingIsSound | src/agent_state/runtime.rs:1137-1236 | all run indexes stay exact, no clash is possible and the global bound of the event index is never reached |
| RunIndex.NewestIsUnique | src/agent_state/runtime.rs:1206-1226 | the per-pane maximum by epoch, sequence, update time and identifier is unique, so listing order does not matter |
| RunSteps.ReduceIsAdmissible | src/agent_state/runtime.rs:458-467 | what a hook makes of a stored run is a proper successor whenever the store accepts it, and a conflict exactly when a reference was given up |
| RunSteps.EndingIsAdmissible | src/agent_state/runtime.rs:828-844 | ending an active run is refused only by a full store |
| RunSteps.CreditIsLawful | src/agent_state/runtime.rs:1238-1267 | on a directory with sound links, crediting a matching unsettled operation keeps them if and only if no stored run claims it yet |
| RunSteps.ClaimsAttest | src/agent_state/runtime.rs:1238-1267 | among the runs a prompt starts, exactly those credited to an operation the hook explains attest its delivery: sent, unsettled, same digest, same target, expected turn, no earlier than its last change; the deadline plays no part |
| Instances.SecondCreditInstance | src/agent_state/runtime.rs:1238-1267 | with the same records: a confirmation refused for room, the next epoch of Codex, and the same operation is credited to a second run; the directory cannot be opened |
| RunSteps.CapacityRefsCollide | src/agent_state/runtime.rs:622-635 | two different turns can share a capacity reference |
| RunSteps.DuplicateClashes | src/agent_state/runtime.rs:1174-1183 | when another run holds the capacity reference, indexing the failed run answers corrupt, whatever the other indexes hold |
| RunSteps.SharedReferencePersists | src/agent_state/runtime.rs:1174-1183 | nothing the store accepts, short of removing one of the two runs, takes a shared reference away again |
| Collision.CollisionInstance | src/agent_state/runtime.rs:603-671 | two sessions from an empty directory, call by call: both failures are stored under one reference, indexing the second answers corrupt, and only the check across runs stops a later opening |
| RunSteps.RepeatedFailure | src/agent_state/runtime.rs:603-671 | a repeated capacity failure is stored again if and only if it is no later than the last observation; later it is a conflict |
| Runtime.AgentRuntime.PrepareOperation | src/agent_state/runtime.rs:143-221 | the exact answer and directory: a known identifier changes nothing and answers by fingerprint; busy if and only if a stored operation is prepared, sent or of unknown delivery on the same target; otherwise the record is the one described, with ten seconds to be confirmed, and prompt and fence are in place unless one of the two is over a limit |
| Runtime.AgentRuntime.MarkDispatchStarted | src/agent_state/runtime.rs:223-237 | the exact answer and directory: a prepared operation is marked, unless the store has no room for the record; any other is returned as it is; fences stay |
| Runtime.AgentRuntime.RejectPreparedRetryIfExpired | src/agent_state/runtime.rs:239-257 | exactly an overdue prepared operation is rejected and its prompt removed, unless the store has no room for that record |
| Runtime.AgentRuntime.SettleDispatch | src/agent_state/runtime.rs:259-313 | the exact answer and directory; a permitted settlement with a printable code is refused exactly when the store has no room for it; the links survive if and only if no claimed operation is rejected |
| Runtime.AgentRuntime.AbandonOperation | src/agent_state/runtime.rs:315-373 | the exact answer and directory: a repeat must name the same revision and reason and releases nothing; a claimed operation is never abandoned; a changed revision is stale; any other is abandoned unless the store has no room |
| Runtime.AgentRuntime.SettleExpiredDispatches | src/agent_state/runtime.rs:383-415 | on success exactly the prepared and sent operations whose deadline has come were settled, rejected or of unknown delivery, each with its receipt, and nothing else changed; it succeeds whenever they all fit, and stops only at a record the store has no room for |
| Runtime.AgentRuntime.HasInFlightOperations | src/agent_state/runtime.rs:417-424 | the index answers for the whole store |
| Runtime.AgentRuntime.HasExpiredDispatch | src/agent_state/runtime.rs:426-438 | the index answers for the whole store |
| Runtime.AgentRuntime.MatchesDispatchInput | src/agent_state/runtime.rs:682-702 | true if and only if some stored operation that was sent, whatever became of it, has this digest, this target, the same or the next Codex epoch, and no later request; automatic ones can be asked for alone |
| Runtime.AgentRuntime.MatchingOperation | src/agent_state/runtime.rs:1238-1267 | found if and only if a sent, unsettled and unabandoned operation has this digest and target, no later last change, and the expected turn of the same epoch or the first of the next Codex epoch |
| Runtime.AgentRuntime.ConfirmLinkedOperation | src/agent_state/runtime.rs:1269-1337 | the exact answer and directory: the operation takes over the run and its binding, and the receipt says whether the run met the deadline; with sound links a claim is confirmed or its record has no room; settled claims stay settled; the fence and prompt go with the confirmation |
| Runtime.AgentRuntime.IndexRun | src/agent_state/runtime.rs:1137-1236 | on any directory: corrupt if and only if another run is known under its number, its turn or one of its references, the bound refused if and only if exceeded, otherwise exactly the specified indexes |
| Runtime.AgentRuntime.ApplyProviderObservation | src/agent_state/runtime.rs:440-557 | the exact answer and directory for every hook, refusals included; the hook goes to the stored run that holds its reference, of its turn or of its binding, or to a new run credited to an operation if and only if the hook accounts for one; a credited prompt is reported as dispatched; the links survive if and only if no removed run had an open claim and no claimed operation was credited again |
| Runtime.AgentRuntime.StartRun | src/agent_state/runtime.rs:490-536 | the exact answer and directory: the previous run ends, room is made, and the new run is credited to an operation if and only if the hook explains one; exactly when the links survive |
| Runtime.AgentRuntime.RoomThenEnroll | src/agent_state/runtime.rs:512-536 | the exact answer and directory; after a retention pass that can make room only a record over 16 KiB is refused for room |
| Runtime.AgentRuntime.Finish | src/agent_state/runtime.rs:559-600 | the exact answer and directory: the claim is settled, a Stop leaves an artifact that describes its response, and a prompt that confirms its own operation is always reported as dispatched |
| Runtime.AgentRuntime.CapacityFailure | src/agent_state/runtime.rs:603-671 | saved first, then indexed: the exact answer and record, with one reference for the turn; when another run holds the reference the record is stored, the answer is corrupt and two runs share it, and otherwise the runtime stays valid |
| Runtime.AgentRuntime.ReconcileProcessForPane | src/agent_state/runtime.rs:727-750 | a changed process ends the pane's current run and clears the pane, unless the ended record is refused; anything else changes nothing |
| Runtime.AgentRuntime.ReconcilePanesAfterRestart | src/agent_state/runtime.rs:752-788 | exactly open runs end whose pane no longer shows the same state, epoch, agent, session and process; on success all of them did, exactly the others stay current and each is shown on its pane; a refusal names a run that could not be ended |
| Runtime.AgentRuntime.RetireReplacedBindings | src/agent_state/runtime.rs:790-807 | the exact answer and directory: the pane is left showing no run of another binding, and the binding's own entry is untouched |
| Runtime.AgentRuntime.EndUnresolvedRun | src/agent_state/runtime.rs:828-844 | the exact answer and directory: an active run becomes the ended one unless the store refuses that record, any other is left alone |
| Runtime.AgentRuntime.ResolveOperatorCompleted | src/agent_state/runtime.rs:907-1013 | written on the very value and pane the operator saw, within the minute, with the process gone, replaced by the expected one, or unchanged on an unchanged screen, and stale if and only if one of these fails; the whole decision is on record; a repeated decision returns without writing; any other is refused for the stated reason |
| Recovery.RevisionMoves | src/agent_state/store.rs:1209-1244 | between two points of any base-lawful history the same unsaturated revision means the same record |
| Recovery.PreconditionGoesStale | src/agent_state/runtime.rs:928-943 | any stored change after a precondition was issued makes it stale, and a resolution, once there, is the only one |
| Runtime.AgentRuntime.RebuildRuns | src/agent_state/runtime.rs:1041-1045 | any listing order gives exact indexes with the highest-numbered run per binding, and per pane the run latest by epoch, number, update and identifier; on any readable directory it answers corrupt when two runs share a reference or a turn, and succeeds when none share one or a sequence number |
| Runtime.OpenIndexed | src/agent_state/runtime.rs:1037-1046 | on any directory of decodable records: refused as the store refuses it, then corrupt when two runs share a reference or a turn, and opened when none share one or a sequence number |
| Runtime.AgentRuntime.RebuildOperations | src/agent_state/runtime.rs:1045-1060 | any listing order gives the exact fence and dispatch-input indexes |
| Runtime.AgentRuntime.ConfirmAll | src/agent_state/runtime.rs:1062-1068 | in order of run identifiers every claim is confirmed; it stops exactly at the first that cannot be; on an openable directory with room it succeeds |
| Runtime.AgentRuntime.SettleInterrupted | src/agent_state/runtime.rs:1069-1102 | the clock is read for each operation; a sent operation becomes of unknown delivery, a prepared one whose deadline has come is rejected, each with its own receipt, and every other one stays as it is; it succeeds when there is room, and stops only at a record the store has no room for |
| Store.AgentStateStore.Open | src/agent_state/store.rs:150-206 | on any directory of decodable records: opens if and only if every check passes; a refusal is that of the first check that fails, runs before operations and records before bodies: corrupt for an oversized or misnamed record, invalid for an invalid one; a lawful directory is never refused; prompts and bodies then match their records one to one |
| Opening.RefusalIsDetermined | src/agent_state/store.rs:150-206 | a directory is refused for one reason only, except that the order of listing decides among faulty operations |
| Runtime.OpenRuntime | src/agent_state/runtime.rs:73-88 | from any base-lawful history: with room for what it has to write opening succeeds if and only if every claim is settled or confirmable and none compete; then each open claim is confirmed by the run that makes it, a prepared operation that is not due stays prepared, a due one is rejected, a sent one is of unknown delivery, every other one is unchanged, and prompts and bodies are exactly those referenced; a refusal is forced by the directory as it then stands |
| Runtime.InitializeRuntime | src/agent_state/store.rs:150-180 | a new directory gives a runtime that is valid and trusted, with an empty history |
| Runtime.ReopenAfterCrash | src/agent_state/runtime.rs:73-88 | stop a daemon between any two durable writes: a new one opens on what was left, under the same condition and with the same result |
| Restart.SoundIsConfirmable | src/agent_state/runtime.rs:1062-1068 | on every lawful history all stored claims can be confirmed and none compete |
| Restart.SettledWasOpenable | src/agent_state/runtime.rs:1062-1068 | a restart that ends with all claims settled started from a directory that was openable |
| Reset.StateDirectory.ResetOffline | src/agent_state/store.rs:778-848 | carried out if and only if the marker is there, or everything is readable, every run is resolved or ended and no operation is prepared or sent; a refusal is that of the first check that fails and writes nothing; every intermediate state is a crash point of one reset to one target |
| Reset.FirstMarkerDecides | src/agent_state/store.rs:794-848 | after the first marker, however many attempts are interrupted, the directory is on its way to that one target, and once it has arrived no attempt touches it |
| Reset.EveryStopIsCrashPoint | src/agent_state/store.rs:794-848 | from a ready directory any number of interrupted attempts leaves it untouched, or on its way to one of the generations drawn |
| Reset.OnlyFinishedOpens | src/agent_state/store.rs:150-206 | opening refuses a directory on its way and accepts the finished, empty one |
| Reset.CrashPointsCompose | src/agent_state/store.rs:815-848 | crash points of a resumed reset are crash points of the first |
| Wedge.RejectionBlocksOpening | src/agent_state/runtime.rs:259-313 | after a rejection an openable directory is openable if and only if no stored run claims the operation; each claim on it is a conflict from then on |
| Wedge.WriteKeepsOpenable | src/agent_state/runtime.rs:1062-1068 | of every lawful write: it keeps the directory openable if and only if it rejects or abandons no claimed operation, credits none twice, and confirms none for another run |
| Wedge.LostClaimPersists | src/agent_state/runtime.rs:1062-1068 | a lost claim makes opening impossible, and no lawful write but removing the run repairs it |
| Instances.RejectionInstance | src/agent_state/runtime.rs:259-313 | from an empty directory, call by call, with records whose texts are within their limits and whose JSON is just below 4 KiB: prepare, send, hook, a confirmation refused for room, a rejection; openable before it and, with room for a restart, not after it |
| Probe.GitPoller.ResolveIdentity | src/git.rs:456-496 | the cache holds exactly the 256 most recently used paths, or all; an answer is less than 60 seconds old, and within them no probe is repeated |
| Probe.GitPoller.CachesMostRecent | src/git.rs:303-321 | the invariant of the cache in the words of its documentation |
| Probe.GitPoller.Poll | src/git.rs:337-454 | one status call per distinct top level, and every path gets the badge polling its worktree alone would give |
| Transcript.LinesSplit | src/codex_capacity.rs:105-119 | cutting a file where a line starts cuts its list of complete lines |
| Transcript.UnfinishedLineIsIgnored | src/codex_capacity.rs:131-134 | bytes without a newline never change the lines read |
| Transcript.FoldIsLastWord | src/codex_capacity.rs:128-155 | the two-variable fold equals the backward reading: the last completion of the turn after the nearest task start decides |
| Transcript.CompletionDecides | src/codex_capacity.rs:128-155 | the last completion in the turn decides: an overload is a capacity failure, another failure an error, none a success |
| Transcript.StartIsPending | src/codex_capacity.rs:128-155 | after the start of another turn, or of the turn itself without a completion since, the outcome is pending |
| Transcript.TailAgrees | src/codex_capacity.rs:105-119 | once a task start is in view, reading from any line start agrees with the whole file |
| Transcript.ParseTerminal | src/codex_capacity.rs:128-155 | the loop equals the fold over complete lines |
| Transcript.AlignWindow | src/codex_capacity.rs:105-118 | the window starts at the first line beginning at or after the cut |
| Transcript.ReadTerminal | src/codex_capacity.rs:83-120 | a shrunken file is refused; otherwise the watermark moves, and the answer is that of the whole file when it fits or a task start is in view |

## Left out

- State format version numbers, JSON and base64url encoding of records and references, and the file system (permissions, links, temporary names, fsync, locks): a write is one atomic change of a map.
- In-process input/output errors: the only failures are crashes and the program's own refusals.
- `store_artifact`, `usage` and `recover_uninitialized_offline`: not part of this model; none of them takes part in dispatch, hooks or restart.
- Reading a record back is reading the map; a directory whose files were edited by hand is only covered by `Store.AgentStateStore.Open` and `Runtime.OpenIndexed`, and there only files that decode.
- Error messages; the closed vocabularies of receipt codes, dispositions and sources are constructors or constants.
- Runtime.AgentRuntime.ReconcilePanesAfterRestart: when two live bindings share a pane, which of them the pane shows is left open, because the program iterates hashed keys.
- Records.Blank: white space beyond ASCII is not modelled.
- Probe.GitPoller.Poll: trimming of paths, worktree descriptions and repository categories are not modelled; the badge is a function of the top level.
- Transcript.ReadTerminal: file identity checks and JSON decoding are a parameter; nothing is said of a window without a task start.
- Terminal mutation, screen detection, command line, API and sidebar: not part of this model.
