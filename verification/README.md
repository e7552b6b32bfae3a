# takl: a verified model of masterless replication

takl keeps a cluster's runners and labels in a last-writer-wins store on every node. There
is no master. Each node stamps its writes with a hybrid logical clock (HLC), pulls changes
from its peers above a per-peer watermark, and merges what it gets row by row. This project
models that replication core in Dafny and proves what it guarantees over whole runs: that
nodes converge, that watermarks lose nothing, that clocks dominate, and where exactly those
guarantees end. The agent's drain switch, the placement query and label editing, which feed
and read the store, are modelled beside it.

Check everything with `dafny verify dfyconfig.toml`. The proofs are checked by the verifier;
nothing was executed.

## How it is built

The code that changes state is modelled as it is written, as classes and loops
(`Hlc.Clock`, `Storage.Store`, `Agents.Agent`, `Labels.Api`, the pull server in `Pull`, the
sync round in `Sync`, the ranker in `Placement`). Every one of those methods is proved equal
to a function on values: `TickFrom`, `JoinBatch`, `AdvanceMarks`, `IsAnswer`, `RowsApplied`,
`EventsApplied`, `LocalTables`.

`Cluster` builds a transition system for any number of nodes from those same functions. A
run interleaves local ticks (with the writes they stamp), requests, answers, and the two
halves of taking an answer. Requests and replies are kept in sets, so they may be delayed,
repeated or reordered; a request may carry watermarks that were read long before, and any
checksums. A reply leaves its set by a step of its own, which may follow its delivery or
come instead of it; "in flight" means not yet gone. The invariants are in `Dominance`, `Stamps`, `Coverage` and
`LogInvariant`; the theorems about runs in `Runs`, `Convergence`, `LogConvergence`,
`Agreement`, `Quiescence`, `LogQuiescence`, `Collection` and `LiveConvergence`; what a
single pull delivers in `Reconciliation`; the runs that show where the theorems stop in
`Witnesses`, and one that meets their hypotheses, with a replicated delete collected, in
`SafeRuns`. `Torn`, `TornRuns`, `TornCoverage`, `TornAgreement`, `TornLog` and `TornEvents`
take the steps apart that the code does not lock together, and say what still holds and what
a lock would restore.

| file | models |
|---|---|
| Text, Model, Sorting | strings as bytes, rows, events, runners, ordered results |
| Hlc | stamps and the clock |
| Merge, EventLog, Checksum | what the store's statements compute |
| Store | the three tables, changed in place |
| Pull, Sync | the server and the client of a pull |
| Cluster, Dominance, Stamps, Coverage, LogInvariant, Runs | runs and their invariants |
| Convergence, LogConvergence, Agreement, Quiescence, LogQuiescence | convergence and what follows it |
| Reconcile, Collection, LiveConvergence | what a pull delivers, full resends, tombstone collection |
| Paths, Witnesses, SafeRuns | runs built step by step: counterexamples, and a delete safely collected |
| Torn, TornRuns, TornCoverage, TornAgreement | the unlocked pairs, split into steps: rows |
| TornLog, TornEvents | and the event log |
| Agent, Placement, Labels | the drain switch, the ranker, label editing and listings |

## Assumptions

- One clock and one store are shared by the agent, the API and the sync engine of a node
  (cmd/takld/main.go:182-189).
- A tick and the writes it stamps are one step; so are merging a reply's rows and the clock
  update after it, and likewise for events. The code holds no common lock over these pairs.
  `Torn` gives each part its own step. `TornRuns.RowsGoBackExactly` says for every run of
  split steps which of them make a row go back, `TornLog.TornLogExactly` which of them let a
  watermark pass an event, and `TornAgreement.LockedStrongConvergence` and
  `TornLog.LockedLogsConverge` that locks over the pairs are enough for one table and one
  log, even if merges of several peers overlap.
- Storing a reply's events and raising the event watermark are one step, also when split.
- `Store.Delete` and `Store.SetWatermark`, and the label PUT of the API, read and then write
  without a transaction; each is one step here.
- A server makes its queries one after the other. A reply here may answer any of the kinds,
  each from the asked mark or from zero, so an answer whose kinds come from different
  moments is several replies (`Paths.PartsTakenTogether`). Only the theorems about a single
  pull (`Reconciliation`) and about quiescence take a whole answer at one moment, because
  the resend guard compares checksums.
- A run starts with empty stores and zero clocks, and nodes do not restart (the clock is not
  persisted).
- Node ids are distinct, each peer address names one node, and two nodes never share an
  owner string. `Cluster.PlainIdsHaveDisjointOwners` gives a sufficient condition on ids and
  `Cluster.ANodeCalledApiSharesAnOwner` shows that some condition is needed.
- Wall readings, random draws, membership events, host snapshots and peer reachability are
  arbitrary inputs. HLC fields are unbounded integers and scores are reals; only the
  checksums use 64-bit arithmetic.

## Where the code and its documentation disagree

The model follows the code.

- docs/architecture.md:59 says that matching checksums mean everything is in sync. That
  fails in two ways. The checksum reads only the key and stamp of live rows, so tables that
  differ in owner, payload or tombstones share it (`Checksum.SumIgnoresOwnerAndPayload`,
  `Checksum.SumReadsLiveStampsOnly`). And timestamp and counter are combined by exclusive or,
  so live rows with different stamps can share it too: (t, 1) and (t + 1, 0) do for every
  even t, which are consecutive ticks of one node (`Checksum.ConsecutiveTicksCanCollide`).
  `Checksum.SumUnchangedExactly` and `Checksum.SumsAgreeExactly` give the exact conditions.
- docs/architecture.md:60 says that a mismatch makes the server send everything. The server
  does so only when it has nothing above the watermark and the request's checksum is not
  zero. `Reconciliation.AntiEntropyExactly` says what this repairs, and
  `Witnesses.RelayCanBeSkipped` is a run in which it does not.
- docs/architecture.md:87 gives every node outside the region a penalty. The code drops
  such nodes when some eligible node is in the region, and otherwise penalises all of them
  (`Placement.CandidatesExactly`, with the input `Placement.OutsideRunnerIsDropped`).
- docs/architecture.md:86 says nodes lacking a label are excluded. A node without the label
  passes if and only if the filter has no colon or nothing after it
  (`Placement.MissingLabelPassesExactly`, with inputs in `Placement.UnlabelledRunnerPasses`).
- docs/v2-plan.md:63 calls the stamps of `DeleteByNode` mostly fine. A prune and a report of
  the pruned node in the same millisecond can carry one stamp and then never reconcile
  (`Witnesses.PruningCanDiverge`); `Agreement.OneTableExactlyWithoutTies` gives the exact
  condition.

## Model

| member | source | states |
|---|---|---|
| `Hlc.Clock.Tick` | internal/model/hlc.go:47-57 | the stamp issued is strictly above the clock, not behind the wall reading, and becomes the clock |
| `Hlc.TickIsLeast` | internal/model/hlc.go:47-57 | no stamp above the clock and not behind the wall is smaller than the one a tick issues |
| `Hlc.Clock.Update` | internal/model/hlc.go:59-68 | the clock becomes the maximum of itself and the stamp seen |
| `Model.NewerTrichotomy` | internal/engine/store/store.go:191-199 | of two rows exactly one is newer, unless they share stamp and owner |
| `Model.NewerTransitive` | internal/engine/store/store.go:191-199 | newer is transitive |
| `Text.LessExactly` | internal/engine/store/store.go:198-198 | one string is less than another if and only if, at the first position where they differ, it has the smaller byte or ends |
| `Model.NewerExactly` | internal/engine/store/store.go:191-199 | a row is newer if and only if its timestamp is greater, or that is equal and its counter greater, or both are equal and its owner is greater at the first byte where the two differ, or extends the other |
| `Storage.Store.Open` | internal/engine/store/store.go:39-92 | each of the three tables is what the file holds, or empty where the file has none |
| `Storage.Store.Put` | internal/engine/store/store.go:163-165 | the row replaces whatever the key held; nothing else changes |
| `Storage.Store.Apply` | internal/engine/store/store.go:167-189 | the row replaces the current one only if newer; afterwards the key is at or above the row |
| `Storage.Store.ApplyRemote` | internal/engine/store/store.go:98-145 | rows become the in-order merge of the batch, ties going to the byte-wise greater owner, and each mentioned kind's watermark its maximum, in one transaction |
| `Merge.JoinBatchIsJoin` | internal/engine/store/store.go:98-129 | the merge leaves each key at the maximum of its old row and the batch's rows for it, and invents nothing |
| `Merge.JoinIsUnique` | internal/engine/store/store.go:191-199 | when stamps determine content there is exactly one such table |
| `Merge.JoinIgnoresOrder` | internal/engine/store/store.go:98-129 | batches with the same rows, in any order and repetition, leave the same table |
| `Merge.JoinIdempotent` | internal/engine/store/store.go:98-129 | replaying any part of a merged batch changes nothing |
| `Merge.JoinSplits` | internal/engine/store/store.go:98-129 | merging a batch in two pieces is merging it whole |
| `Merge.JoinOrderShowsOnEqualStamps` | internal/engine/store/store.go:191-199 | two different rows of a key merge alike in both orders if and only if they do not share stamp and owner |
| `Merge.AdvancedMark` | internal/engine/store/store.go:130-152 | a watermark read after a batch is the maximum of the old one and that kind's stamps in the batch, losing rows included; other peers' marks stay |
| `Merge.BatchMaxIsMax` | internal/engine/store/store.go:147-152 | the running maximum is the least upper bound of zero and the kind's stamps |
| `Merge.BlindPutIsGuardedExactlyWhen` | internal/engine/store/store.go:163-189 | a blind put equals the guarded one if and only if the key is free, holds this row, or holds an older one |
| `Storage.Store.Get` | internal/engine/store/store.go:206-221 | finds the row of the key, tombstones included, if and only if there is one |
| `Storage.Store.ChangesSince` | internal/engine/store/store.go:268-285 | exactly the kind's rows above the mark, tombstones included, once each, in stamp order |
| `Storage.ChangesExactly` | internal/engine/store/store.go:268-285 | on the fields: the kind's rows with a greater timestamp, or the same and a greater counter, by timestamp and counter |
| `Storage.EventChangesExactly` | internal/engine/store/store.go:404-431 | the same for events |
| `Storage.Store.Delete` | internal/engine/store/store.go:287-295 | the key becomes a tombstone under the new stamp that keeps the old payload |
| `Cluster.DeleteLands` | internal/engine/store/store.go:287-295 | a delete leaves a tombstone under the caller's owner and stamp with the payload it buries, empty if there was none, and every other key alone |
| `Cluster.PutLands` | internal/engine/store/store.go:163-165 | a put leaves the live row it was given and every other key alone |
| `Storage.Store.DeleteByNode` | internal/engine/store/store.go:297-305 | the live rows whose owner starts with the node's id and a slash become tombstones that keep owner and payload under one new stamp; nothing else changes |
| `Cluster.PruneLands` | internal/engine/store/store.go:297-305 | exactly those rows, key by key |
| `Cluster.PruneTakesOwnRowsOnly` | internal/engine/store/store.go:297-305 | pruning an id takes the agent rows of the node with that id and of no other, even if one id begins with the other, and label rows only for the id "api" |
| `Storage.Store.GCTombstones` | internal/engine/store/store.go:307-313 | exactly the tombstones below the limit go, and their number is returned |
| `Storage.Store.RowChecksum` | internal/engine/store/store.go:315-336 | the loop over the live rows, in any order, returns the order-free fold |
| `Checksum.FoldAnyFirst` | internal/engine/store/store.go:315-336 | any entry may be folded first: the checksum does not depend on row order |
| `Checksum.SumAfterReplace` | docs/v2-plan.md:89 | overwriting a live row moves the checksum by its old term and its new one |
| `Checksum.SumAfterInsert` | internal/engine/store/store.go:315-336 | a live row under a new key moves the checksum by its term |
| `Checksum.OneRowSum` | internal/engine/store/store.go:315-336 | an empty table has checksum zero, and so has a lone tombstone; a lone live row has its key's hash xor timestamp xor counter |
| `Checksum.SumSeesKey` | internal/engine/store/store.go:315-336 | a live row added under one or the other of two keys that differ in one byte gives different checksums |
| `Checksum.SumSeesStamp` | internal/engine/store/store.go:315-336 | tables that differ only in the timestamp, or only in the counter, of one live row never share a checksum |
| `Checksum.SumUnchangedExactly` | internal/engine/store/store.go:315-336 | overwriting a live row by a live row of another stamp leaves the checksum if and only if timestamp xor counter is the same |
| `Checksum.EvenStampsCollide` | internal/engine/store/store.go:315-336 | in every even millisecond t, the stamps (t, 1) and (t + 1, 0) add the same bits to a checksum |
| `Checksum.ConsecutiveTicksCanCollide` | docs/architecture.md:59 | for even t, a row stamped (t, 1) rewritten by the next tick, in millisecond t + 1, leaves the checksum of any table as it was |
| `Checksum.SumsAgreeExactly` | docs/architecture.md:59 | any two tables share a checksum if and only if the live keys and stamps found in one only fold like those found in the other only |
| `Checksum.SumReadsLiveStampsOnly` | internal/engine/store/store.go:315-336 | tables with the same live keys and stamps share a checksum whatever else they hold |
| `Checksum.SumIgnoresOwnerAndPayload` | docs/v2-plan.md:62 | changing owner or payload of a row never changes a checksum |
| `Checksum.FnvLoop` | internal/engine/store/store.go:328-332 | the loop computes 64-bit FNV-1a |
| `Checksum.KnownEmptyHash` | internal/engine/store/store.go:328-332 | the hash of the empty string is the published FNV-1a value |
| `Checksum.KnownHash` | internal/engine/store/store.go:328-332 | and so is that of "a" |
| `Checksum.PrimeIsInvertible` | internal/engine/store/store.go:328-332 | multiplying by the prime modulo 2^64 loses nothing |
| `Checksum.OneByteNeverCollides` | internal/engine/store/store.go:328-332 | keys of one length that differ in one byte have different hashes, at every length |
| `Storage.Store.EventChecksum` | internal/engine/store/store.go:433-455 | the loop over the events, in any order, returns the order-free fold |
| `Checksum.EventSumAfterInsert` | internal/engine/store/store.go:433-455 | a new event moves the event checksum by the term of its text and stamp |
| `Checksum.EventTextInjective` | internal/engine/store/store.go:443-451 | different events are hashed under different texts, even if a runner id contains a slash |
| `Storage.Store.AppendEvent` | internal/engine/store/store.go:338-363 | the event is stored under the runner's greatest number plus one, and nothing else changes |
| `Cluster.EmissionLands` | internal/engine/store/store.go:338-363 | an emission adds one event under the next free number of its node, with the caller's type, payload and stamp; everything stored stays |
| `Storage.Store.EventsSince` | internal/engine/store/store.go:404-431 | exactly the events above the mark, once each, in stamp order |
| `Storage.Store.ApplyEvents` | internal/engine/store/store.go:457-485 | the batch is inserted where its numbers are free |
| `EventLog.InsertAllAdds` | internal/engine/store/store.go:457-485 | no stored event is rewritten, every new number is taken, nothing else is added |
| `Storage.Store.Watermark` | internal/engine/store/store.go:503-513 | reads the mark, zero when there is none |
| `Storage.Store.SetWatermark` | internal/engine/store/store.go:487-501 | the mark becomes the maximum of itself and the stamp; no other mark moves |
| `Pull.ServeKind` | internal/transport/server.go:34-74 | one kind's answer: all above the mark, or all rows when nothing is newer and a non-zero checksum differs |
| `Pull.ServeEvents` | internal/transport/server.go:76-107 | the same for events |
| `Pull.ServePull` | internal/transport/server.go:29-110 | the answer holds exactly the rows and events each kind's rule selects, once each, in order, and the server's checksums |
| `Pull.OmittedReadsAsZero` | internal/transport/server.go:34-62 | a kind without a mark in the request is sent whole, and one without a checksum is never resent |
| `Pull.AnswerOrder` | internal/transport/server.go:34-74 | runner rows come first, and each kind by timestamp and counter |
| `Sync.BuildRequest` | internal/engine/sync/sync.go:101-125 | the request holds the client's watermarks for the peer and its own row and event checksums |
| `Sync.ApplyResponse` | internal/engine/sync/sync.go:131-186 | rows merged, events stored, marks raised, clock at the maximum of all stamps received |
| `Sync.RoundClockIsMax` | internal/engine/sync/sync.go:131-186 | after a round the clock is at or above its old value and every stamp received, and equal to one of them |
| `Sync.RoundOnce` | internal/engine/sync/sync.go:100-188 | after a round the client is at or above every row the peer holds beyond the watermark and loses nothing; an unreachable peer changes nothing |
| `Sync.GcTombstones` | internal/engine/sync/sync.go:50-60 | one tick, then exactly the tombstones more than an hour behind it go |
| `Paths.RoundIsARun` | internal/engine/sync/sync.go:100-188 | an undisturbed round is a run of the cluster model with the same end state |
| `Pull.AnswerIsPart` | internal/transport/server.go:29-110 | a whole answer made at one moment is one of the replies the model allows |
| `Paths.PartsTakenTogether` | internal/engine/sync/sync.go:131-153 | taking the kinds of an answer one after the other leaves the node that taking them at once leaves |
| `Cluster.PlainIdsHaveDisjointOwners` | internal/agent/agent.go:47-49 | ids without a slash and other than "api" never share an owner string |
| `Cluster.ANodeCalledApiSharesAnOwner` | internal/agent/agent.go:47-49 | a node called "api" whose epoch is another's id writes under that node's label owner |
| `Dominance.StepKeepsClockInv` | internal/engine/sync/sync.go:131-186 | every step keeps each clock at or above its rows, events, replies in flight and every mark peers hold for it |
| `Runs.TicksDominate` | internal/model/hlc.go:47-57 | in every run a tick's stamp is strictly above all its node stores, has in flight, or is remembered for |
| `Runs.ClocksNeverGoBack` | internal/model/hlc.go:47-68 | no clock ever decreases in any run |
| `Runs.CausalChain` | internal/engine/sync/sync.go:133-152 | along any chain of rows, each written by a node that held the one before, stamps strictly increase across any number of nodes |
| `Runs.BlindWritesRefineMerge` | internal/engine/store/store.go:163-204 | in every reachable state put, delete and prune change the table exactly as the guarded merge of their rows |
| `Runs.RowsNeverGoBack` | internal/engine/store/store.go:163-204 | unless a collection removes something, no key is ever lost or replaced by an older row |
| `Coverage.StepKeepsCoverInv` | internal/engine/store/store.go:107-143 | every step but a collection that removes something keeps own writes covered, skipped writes covered, and replies complete above their request's mark |
| `Runs.WatermarkCompleteness` | internal/engine/store/store.go:268-285 | in every state, unless a collection removed something, any row B wrote at or below A's watermark for B is matched or beaten at A |
| `Runs.StampUniqueness` | internal/engine/store/store.go:191-199 | in runs without pruning, any two rows stored or in flight are equal or one is newer |
| `Runs.BoundedDrift` | internal/model/hlc.go:47-68 | clocks are never behind their wall, and no timestamp anywhere exceeds the greatest wall reading so far |
| `Runs.MaxWallWasRead` | internal/model/hlc.go:47-57 | that bound is zero or a reading some tick of the run made |
| `Convergence.MeshCoversAll` | internal/engine/sync/sync.go:100-153 | after the last write and a full mesh of pulls, kinds answered together or apart, every node is at or above every row ever written; collections that remove nothing are allowed throughout |
| `Convergence.StampConvergence` | internal/transport/server.go:34-74 | pruning included, all nodes then hold the same keys with the same stamps |
| `Convergence.StrongConvergence` | internal/engine/sync/sync.go:100-153 | without pruning all nodes then hold one table: for each key ever written, its unique greatest row |
| `Agreement.ReachableStanding` | internal/engine/store/store.go:167-199 | a node never gives up a row it wrote for another of the same stamp |
| `Agreement.OneTableExactlyWithoutTies` | internal/engine/store/store.go:297-305 | pruning included, nodes hold one table after the mesh if and only if, at the last write, no key's greatest stamp had been written with two contents |
| `Witnesses.PruningCanDiverge` | docs/v2-plan.md:63 | a run from empty stores that ends, after a full mesh, with one stamp live on one node and dead on the other |
| `Convergence.ConvergedIsStable` | internal/engine/store/store.go:98-145 | from a converged state no pull, of any age, changes any row |
| `Quiescence.SettledAnswersExactly` | internal/transport/server.go:39-62 | from a converged state on, ties or not, after one more pull of the kind, a later answer carries a row if and only if the client's checksum is neither zero nor the server's |
| `Quiescence.NoMoreRows` | internal/transport/server.go:39-62 | pruning included, without ties every later request is then answered without rows, however late the answer |
| `LogQuiescence.NoMoreEvents` | internal/transport/server.go:76-107 | from complete logs on and after one more event pull, every later request is answered without events, however late the answer |
| `Convergence.MarksNeverGoBack` | internal/engine/store/store.go:487-501 | no watermark ever decreases in any run |
| `Reconciliation.PullCoversExactly` | internal/transport/server.go:34-74 | after a pull the client covers a row of the server if and only if it did before, the row is above its watermark, or the server has nothing above it and the client's checksum is neither zero nor the server's |
| `Reconciliation.AntiEntropyExactly` | internal/transport/server.go:50-62 | with nothing above the watermark, a missing row is repaired if and only if the client's checksum is not zero and differs |
| `Witnesses.RelayCanBeSkipped` | internal/transport/server.go:50-62 | a three-node run in which a late relayed row lies below the watermark and no pull from the relay brings it |
| `Reconciliation.FullResend` | internal/transport/server.go:50-62 | a full resend brings the client to every row of the kind and moves no watermark |
| `Reconciliation.ResendsBothWays` | internal/transport/server.go:50-62 | two full resends, answered one each way by the server's guard, make the tables equal on the kind when stamps determine content |
| `Reconciliation.EventPullHoldsExactly` | internal/transport/server.go:76-107 | after a pull the client has an event of the server if and only if it did before, the event is above its watermark, or the server has none above it and the client's event checksum is neither zero nor the server's |
| `Reconciliation.EventAntiEntropyExactly` | internal/transport/server.go:90-97 | with no event above the watermark, a missing number arrives if and only if the client's event checksum is not zero and differs |
| `Reconciliation.FullEventResend` | internal/transport/server.go:90-97 | a full resend of the log brings every number the server has and moves no watermark |
| `LogInvariant.StepKeepsLogInv` | internal/engine/store/store.go:338-363 | every step keeps logs numbered, origins complete and event marks covered |
| `LogConvergence.LogsAgree` | internal/engine/store/store.go:457-485 | in every state all stores agree on the event of a runner and number, and it was emitted |
| `LogConvergence.OriginNumbersItsEvents` | internal/engine/store/store.go:338-363 | the origin's events are numbered 1 to n without gaps, with strictly increasing stamps |
| `LogConvergence.EventWatermarkCompleteness` | internal/engine/sync/sync.go:155-186 | any event B emitted at or below A's event watermark for B is stored at A |
| `LogConvergence.LogsConverge` | internal/engine/sync/sync.go:155-186 | once emission stops, a full mesh leaves each log equal to everything ever emitted |
| `LogConvergence.LogsEqual` | internal/engine/sync/sync.go:155-186 | hence any two nodes end with one event table |
| `Collection.CollectsOldTombstonesOnly` | internal/engine/sync/sync.go:50-60 | a key goes if and only if it holds a tombstone more than an hour behind the tick; what stays is unchanged |
| `Collection.CollectionIsInvisible` | internal/engine/store/store.go:225-266 | the listings of a kind before and after a collection are the same, and so is its checksum |
| `Collection.StepKeepsLiveOwners` | internal/engine/store/store.go:297-305 | every step, pruning included, keeps each node's live writes under its own owner strings |
| `Collection.ReappearsExactly` | internal/engine/store/store.go:98-145 | a version held nowhere is held after a step if and only if that step writes it |
| `Collection.OnlyTombstonesReappear` | internal/engine/store/store.go:287-305 | in any run, a version once held and now in no store and no reply in flight comes back if and only if it is a tombstone that a prune or a delete writes again |
| `Collection.ExtinctForever` | internal/engine/store/store.go:98-145 | a live version that no store and no reply in flight holds, replicated before or not, never comes back in any later run; a tombstone in any run without pruning |
| `Witnesses.PruningCanRepeatATombstone` | internal/agent/agent.go:111-139 | a run in which a tombstone that was collected everywhere is written again, equal, by another node's prune |
| `Collection.CollectionSafety` | internal/engine/sync/sync.go:50-60 | if nothing older than a tombstone is stored or still in flight, no older live version is ever seen again in any run, pruning included; nor an older tombstone without pruning |
| `Collection.ReturnsExactlyWhenSent` | internal/transport/server.go:50-62 | a forgotten key regains a peer's version in a round if and only if it lies above the watermark or the resend guard fires |
| `Witnesses.CollectionCanResurrect` | docs/v2-plan.md:61 | a run in which a collected delete is undone by a peer that never saw it |
| `LiveConvergence.AcknowledgedIsSafe` | docs/v2-plan.md:61 | a tombstone that every node is at or above, with no older version still in flight, is safe to collect |
| `LiveConvergence.AckedRunsAreSafe` | docs/v2-plan.md:61 | the planned rule is safe: if each tombstone is collected only when every peer's watermark for its writer has reached its stamp and no older reply is in flight, every collection of the run is safe |
| `SafeRuns.ReplicatedDeleteIsCollected` | docs/v2-plan.md:61 | such a run: a label is pulled, its replies are lost, it is deleted, the tombstone is pulled, and both nodes collect it |
| `LiveConvergence.StepKeepsTrimmedCover` | internal/engine/sync/sync.go:50-60 | every step, collection included, keeps coverage of all rows except those at or below a collected tombstone |
| `LiveConvergence.LiveRowsUpToTies` | internal/engine/sync/sync.go:50-60 | with real collection, pruning and ties: if each tombstone was safe when collected, then after the last write and a full mesh every live row held is the greatest ever written to its key, and a node lacks such a row only for one of the same stamp and owner, which it holds or which was collected |
| `LiveConvergence.LiveRowsConverge` | internal/engine/sync/sync.go:50-60 | hence, if at the last write no greatest live row tied with another, a node then holds a live row if and only if it is the greatest ever written to its key |
| `LiveConvergence.ListingsConverge` | internal/engine/store/store.go:225-266 | hence any two nodes then give the same listings and checksums |
| `Torn.HalvesOfTake` | internal/engine/sync/sync.go:148-152 | merge and clock update, one right after the other, are the model's one step |
| `Torn.PartsOfLocal` | internal/agent/agent.go:51-59 | tick, row and event, one right after the other, are the model's one step |
| `Torn.HalvesOfTakeEvents` | internal/engine/sync/sync.go:178-185 | storing events and the clock update, one right after the other, are the model's one step |
| `Torn.TornMergeLosesExactly` | internal/engine/sync/sync.go:148-152 | a write inside a merge, other merges pending or not, loses something its node had if and only if a row of the key, merged or stored, outruns clock and wall, or ties and has the greater owner |
| `Torn.TornMergeCanDiverge` | internal/engine/sync/sync.go:148-152 | a run with split steps in which a row goes back, the raised watermark hides it, and pulls both ways change nothing |
| `TornRuns.StepKeepsTornClock` | internal/engine/sync/sync.go:148-152 | every split step keeps all stored stamps at or below the clock or a reply merged and not yet shown |
| `TornRuns.RowsGoBackExactly` | internal/engine/sync/sync.go:148-152 | in every run of split steps a step loses something a node covered if and only if it removes a tombstone, replaces a row that a pending reply brought and that outruns the write, or writes late below the stored row |
| `TornRuns.OnlyHalvesLose` | internal/engine/sync/sync.go:148-152 | over any stretch without such steps nothing is lost |
| `Torn.LateWriteCanGoBack` | internal/api/api.go:255-262 | a run of two label requests at one node in which the row goes from stamp 2 back to stamp 1 |
| `TornCoverage.TornWatermarkCompleteness` | internal/engine/store/store.go:268-285 | watermark completeness in every run of split steps whose steps lose nothing and whose writes are above every mark and reply heard of their node |
| `TornCoverage.DisciplinedRunsConverge` | internal/engine/sync/sync.go:100-153 | mesh convergence of all such runs |
| `TornCoverage.LockedIsDisciplined` | internal/engine/sync/sync.go:81-85 | a write that is not late and made while its node has no unfinished merge meets both conditions |
| `TornCoverage.LockedRunsConverge` | internal/engine/sync/sync.go:81-85 | hence with locks over the two pairs split runs converge, merges of several peers overlapping |
| `TornAgreement.TornStampUniqueness` | internal/model/hlc.go:47-57 | in every run of split steps without pruning, any two rows written are equal or one is newer, however late they were written |
| `TornAgreement.TornStrongConvergence` | internal/engine/sync/sync.go:100-153 | disciplined split runs without pruning end, after the mesh, in one table: for each key ever written, its unique greatest row |
| `TornAgreement.LockedStrongConvergence` | internal/engine/sync/sync.go:81-85 | so do split runs with locks over the two pairs |
| `LogInvariant.GrowthKeepsLogExactly` | internal/engine/store/store.go:338-363 | an emission leaves every event mark and reply complete if and only if no peer's mark and no reply in flight has passed its stamp |
| `TornLog.TornNumbering` | internal/engine/store/store.go:338-363 | in every run of split steps the origin's table holds its events under 1 to n and no others of its own, and all stores agree on the event of a runner and number |
| `TornLog.TornOrderExactly` | internal/agent/agent.go:149-151 | a split step breaks the growth of an origin's stamps with its numbers if and only if it appends an event under a tick at or below the last one's |
| `TornLog.OneEmitterKeepsOrder` | internal/agent/agent.go:111-139 | with one emitting thread per node, which ticks and then appends, stamps grow with the numbers in every split run |
| `TornLog.TornLogExactly` | internal/engine/sync/sync.go:155-186 | from a state of a split run whose event marks and replies are complete, a step leaves them so if and only if it appends no event that a peer's mark or a reply in flight has passed |
| `TornEvents.LateEventIsSkipped` | internal/agent/agent.go:111-139 | a run with one emitter in which a node, between tick and append, relays a later event, so that a peer's watermark passes the event appended and the peer lacks it |
| `TornLog.TornEventCompleteness` | internal/engine/sync/sync.go:155-186 | in every split run without such steps, any event B emitted at or below A's event watermark for B is stored at A |
| `TornLog.TornLogsConverge` | internal/engine/sync/sync.go:155-186 | once emission stops, a full mesh leaves each log of such a run equal to everything ever emitted |
| `TornLog.LockedLogsConverge` | internal/engine/sync/sync.go:81-85 | locks over tick and append, and over storing events and the clock update, are enough for that |
| `Torn.LateWriteCanBeSkipped` | internal/agent/agent.go:141-147 | a run with split steps in which a node's own write lies below a peer's watermark and no pull brings it |
| `Torn.WholeMergeLosesNothing` | internal/engine/sync/sync.go:148-152 | if no other merge of the node is unfinished, a write stamped after the clock update loses nothing the merge left |
| `Agents.Agent.constructor` | internal/agent/agent.go:32-45 | a new agent has zero counters and is not draining |
| `Agents.Agent.PutRow` | internal/agent/agent.go:141-147 | writes one live row under the agent's own owner string |
| `Agents.Agent.Start` | internal/agent/agent.go:51-59 | one tick stamps both the runner row and the join event |
| `Agents.Agent.Step` | internal/agent/agent.go:61-88 | counters and status move by the hysteresis rule; one tick stamps the row, which carries the new status, and no event |
| `Agents.Agent.OnMember` | internal/agent/agent.go:111-139 | every event ticks; a departure buries the departed node's live rows and nothing else touches a row; joins and departures are logged as such, with id and address |
| `Agents.MemberLands` | internal/agent/agent.go:111-139 | that effect, on the fields of the tables, for every kind of event |
| `Agents.CountersMeasureRuns` | internal/agent/agent.go:61-88 | each counter is the length of the run of its reading that ends now, and at most one is not zero |
| `Agents.DrainRefinesHistory` | internal/agent/agent.go:61-88 | draining if and only if five hot ticks in a row occurred with no five normal ones in a row ending later |
| `Agents.FlipsAreApart` | internal/agent/agent.go:61-88 | two status flips are at least five ticks apart |
| `Agents.FiveHotSnapshotsDrain` | internal/agent/agent.go:66-79 | five snapshots in a row with CPU or memory at 0.90 or more, or under 2000 MB of disk, leave the agent draining whatever came before |
| `Agents.FiveCalmSnapshotsStop` | internal/agent/agent.go:66-79 | five with none of the three leave it active |
| `Agents.FourDoNotDrain` | internal/agent/agent.go:66-79 | four snapshots from the start never make it drain |
| `Placement.LabelsMatch` | internal/api/api.go:404-423 | the loop accepts a runner if and only if every filter matches it |
| `Placement.MissingLabelPassesExactly` | internal/api/api.go:404-414 | a runner without the named label passes a filter if and only if the filter has no colon or nothing after it |
| `Placement.UnlabelledRunnerPasses` | docs/architecture.md:86 | a runner without labels is eligible for "gpu" and "gpu:" and not for "gpu:gpu" |
| `Placement.Select` | internal/api/api.go:394-439 | the loops select the candidates in listed order, and set the penalty exactly on fallback |
| `Placement.CandidatesExactly` | internal/api/api.go:394-439 | a runner is a candidate, as often as listed, if and only if it is eligible and in the region, or none of the eligible is |
| `Placement.CandidatesAreFit` | internal/api/api.go:394-414 | every candidate is a listed runner that is active, has a free worker and passes every label filter |
| `Placement.RegionRule` | internal/api/api.go:419-431 | candidates come from outside the region, under the penalty, if and only if a region is asked for and no fit runner is in it |
| `Placement.FilterKeepsOrder` | internal/api/api.go:391-423 | the selected runners stand in the order of the list |
| `Placement.OutsideRunnerIsDropped` | docs/architecture.md:87 | of two eligible runners the one outside the region is no candidate, and no penalty applies |
| `Placement.Rank` | internal/api/api.go:441-451 | a score-descending permutation of the candidates, each with its own draw |
| `Placement.BestRunner` | internal/api/api.go:391-454 | on a list of runners: an answer is found if and only if one is eligible, ranks exactly the candidates, and every ranked runner is active with a free worker |
| `Placement.ScoreWeights` | internal/api/api.go:370-374 | a worker adds 10, full CPU takes 50, full memory 30, 1000 MB of disk add 1, and nothing scores zero |
| `Placement.RankedScoreBand` | internal/api/api.go:370-374 | every ranked score is within the jitter band around the base score |
| `Placement.LeadOfTenWins` | internal/api/api.go:370-374 | a runner that leads by ten in base score is ranked ahead for every draw |
| `Placement.SmallerLeadCanLose` | internal/api/api.go:370-374 | any smaller lead loses for some pair of draws |
| `Labels.Api.GetLabels` | internal/api/api.go:182-218 | not found unless the runner is live, otherwise its own labels overridden by the API's |
| `Labels.Api.UpdateLabels` | internal/api/api.go:220-269 | refuses unknown runners and bad bodies without effect, otherwise one tick and one merged row |
| `Labels.Api.DeleteLabels` | internal/api/api.go:271-279 | always one tick and one tombstone |
| `Labels.PutNeedsALiveRunner` | internal/api/api.go:220-269 | a PUT for a missing or buried runner changes nothing; for a live one it leaves a live label row of the API's with the new values |
| `Labels.PrunedRunnerIsGone` | internal/api/api.go:220-236 | a runner whose node was pruned is listed no more and takes no labels |
| `Storage.Store.List` | internal/engine/store/store.go:225-266 | without filters: the page that limit and offset select of exactly the live rows of the kind, once each, by key |
| `Storage.ListingIsByKey` | internal/engine/store/store.go:236-236 | a row is listed before another if and only if its key has the smaller byte at the first difference, or ends there |
| `Storage.PageExactly` | internal/engine/store/store.go:238-247 | a page starts at the offset and is as long as the limit, cut at the end; without a limit the offset is ignored, unless the limit is -1 |
| `Storage.ListingIsUnique` | internal/engine/store/store.go:225-266 | the order by key leaves only one such answer |
| `Storage.PagesJoin` | internal/engine/store/store.go:238-247 | pages of one size, one after the other, are the whole listing |
| `Labels.Api.ListRunners` | internal/api/api.go:458-473 | the runners of the rows of that page that decode, in order |
| `Labels.RunnersOfAppends` | internal/api/api.go:458-473 | decoding keeps the order of the rows |
| `Labels.Api.MergeLabels` | internal/api/api.go:475-495 | the loop overlays each runner's API labels on its own |
| `Labels.ListingShows` | internal/api/api.go:383-389 | a runner is shown if and only if some live runner row decodes to it, labels overlaid |
| `Labels.Api.BestRunner` | internal/api/api.go:376-454 | placement over the store: found if and only if some shown runner is eligible, ranks exactly the candidates among those shown, all of them active with a free worker |
| `Labels.PlacementFiltersOnPuts` | internal/api/api.go:404-414 | a runner passes the filter name:value if and only if value is what the PUTs last gave the name or, if none did, what was read before |
| `Labels.PlacementForgetsDeleted` | internal/api/api.go:404-414 | after a DELETE only later PUTs and the runner's own labels count |
| `Labels.LabelsSinceLastDelete` | internal/api/api.go:240-279 | after any history, a reader sees the runner's labels overridden by the PUTs since the last DELETE, though the tombstone keeps the old payload |
| `Labels.LabelsWithoutDelete` | internal/api/api.go:220-269 | without a DELETE the PUTs override what was there |

## Left out

- SQLite: connections, transactions, WAL, indexes and query planning. Tables are maps on
  their primary keys, and a statement or transaction is atomic. Database errors are not
  modelled.
- gRPC, protobuf, TLS and connection caching: a pull is a request and a reply value.
- Membership gossip: membership events are arbitrary inputs to the agent.
- JSON: payloads are decoded values; a payload that does not decode is kept as raw bytes.
- HTTP routing, metrics, profiling, authentication, configuration, the command line and
  certificates: no deep invariant.
- Storage.Store.List: the `json_extract` filters are not modelled; no caller here uses them.
- `Store.Events` limits and the summary, cluster and event listings of the API: queries that
  would only add easy members.
- Storage.Store.DeleteByNode: matches the owner by plain prefix; the `LIKE` operator's
  wildcards and case rules are not modelled.
- Hlc.Clock.Tick: does not model int64 overflow; the fields of a stamp are unbounded integers.
- Placement.LeadOfTenWins: over reals; floating-point rounding is not modelled.
- Host sampling: snapshots are arbitrary inputs.
- Restarts: a node that restarts has a zero clock and a full store, which is outside the runs.
- Runs of split steps: collection that removes something, and the one-table form with
  pruning, are stated for whole steps only.
- LiveConvergence.LiveRowsConverge: requires that no greatest live row ties with another.
  With a tie the writes alone do not decide the outcome, because the tombstone of the tie may
  be collected before or after the live row is pulled; `LiveConvergence.LiveRowsUpToTies`
  says what holds then.
- Convergence.StrongConvergence: requires each node to pull from every other after the last
  write. Relays alone do not suffice (`Witnesses.RelayCanBeSkipped`);
  `Reconciliation.PullCoversExactly` says which relayed rows a pull brings.
