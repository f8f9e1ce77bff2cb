# StellarFlow backend: verified models

A Dafny 4.11 model of the parts of the StellarFlow backend where a mistake would be
hard to see by reading one function, with proofs about whole runs, whole inputs and
every interleaving.  `dafny verify dfyconfig.toml` checks everything.

* **Shielded notes.** `Merkle` models the incremental tree: the frontier append keeps
  its in-place list and nested loops and is proved equal to the zero-padded perfect
  tree.  `MerkleBinding` gives the node hash its real shape (operands reduced modulo
  the BN254 prime) and shows what a root commits to.  `NoteParser` models a batch of
  events as a fold over the tables, `NoteIndexer` the transaction over a ledger range;
  `NoteOutcomes` and `RangeOutcomes` say what a batch and a range come to in terms of
  their events and the tables before them, failures included; and `ShieldedPipeline` joins them: equal roots mean equal commitments modulo the
  prime, or a collision above every place where they differ.
* **Key rotation.** `KeyRotation` is the protocol between callers of `sign_envelope`
  and the scheduler, as atomic steps between awaits.
* **Capital rebalancing.** `Rebalancer` models the ordered plan, its execution and the
  allocation table, in exact arithmetic.
* **OpenAPI gate.** `OpenApi` and `OpenApiGate` model the recursive schema comparison
  through `$ref` and the comparison of whole documents.
* **Dead-letter queue, heatmap, anchor settlement.** `DeadLetterQueue`, `Heatmap` and
  `AnchorSettlement`.
* `Results`, `Bits`, `Hex`, `Sorting`, `Sums` and `Names` are shared.

Where the code does not do what its documentation says, the model follows the code, a
lemma shows a concrete case, and another says exactly when the claim holds:

* A root does not bind leaves at or above the field prime: `0` and the prime are
  different 64-digit leaves with one root (`NonCanonicalLeavesShareARoot`), and the
  parser stores both, so two databases share a checkpoint without sharing a commitment
  (`ZeroAndPrimeShareACheckpoint`).  The root binds exactly the residues of the
  zero-padded list (`RootBindsResidues`, `CheckpointBindsResidues`,
  `ResiduesDetermineCheckpoint`).
* A deposit that arrives late for an indexed range is stored and covered by no
  checkpoint (`LateDepositIsUncovered`); `CoverageExactly` gives the condition.
* Leaf indices do not always ascend by (ledger, position): an earlier range may be
  indexed after a later one (`EarlierRangeBreaksOrder`), and deposits without a
  position share one (`TiedDepositsShareAPosition`).  `LeavesFollowLedgers` and
  `LeavesFollowPositions` say exactly when they do.
* Withdrawing first does not always fund the deposits, because dust withdrawals are
  dropped (`DustCanRunShort`); it does exactly when the moved strategies do not gain
  weight in total (`NeverShortExactly`).
* An allocation row that the target leaves out keeps its amount, so capital is counted
  twice (`StaleRowIsCountedTwice`); `CapitalIsConservedExactly` gives the condition.
* A queue configured with `max_size = 0` keeps everything, because `LTRIM key -0 -1`
  trims nothing (`SizeBoundExactly`).

Two readings of the source.  The tree service cannot run as written: `update_root` uses
names that are not defined (`target_ledger_seq`, `row`), and `NativeMerkle` is never
imported, so `_validate_depth` raises in `_append`, `compute_root_from_leaves` and
`compute_merkle_path`.  It is modelled as it is evidently meant: depths from 1 to 32 are
valid, and there is one checkpoint per ledger holding the root of all stored leaves,
with the untagged zero frontier it stores.  In the spent-nullifier table the database's
uniqueness of `event_hash` is an error that fails the transaction, raised when the row
is added.

Assumptions: transactions run one after another; the event loop interleaves coroutines
only at awaits; key ids from the provider are fresh and one rotation scheduler runs at
a time; the queue's process is the only writer of its list, and its pushes do not
overlap (two that do can take ids in one order and append in the other).

## Model

| member | source | states |
|---|---|---|
| `Merkle.GetZeroValue` | app/services/merkle_service.py:73-79 | the loop computes the root of an empty subtree of any height, and refuses negative levels |
| `Merkle.SmallTrees` | app/services/merkle_service.py:94-112 | roots of two and three leaves written out: left before right, zero for a missing leaf |
| `Merkle.AppendReference` | app/services/merkle_service.py:99-112 | the nested loops over the in-place list return the fold of single-leaf pushes, root and frontier |
| `Merkle.Append` | app/services/merkle_service.py:115-122 | which updates are refused and with which error, and the reference append otherwise |
| `Merkle.AppendFromEmpty` | app/services/merkle_service.py:98-136 | for every depth and every list that fits, the fast append from the initial state returns the zero-padded perfect tree's root and leaves a live frontier |
| `Merkle.ExtendIsTreeRoot` | app/services/merkle_service.py:99-112 | from any frontier live for a prefix, appending gives the perfect root of the longer list and a frontier live for it |
| `Merkle.LiveEntryIsCompleteSubtree` | app/services/merkle_service.py:105-109 | the frontier entry at a set bit of the leaf count is the perfect root of a full block of real leaves |
| `Merkle.ExtendSplits` | app/services/merkle_service.py:98-122 | appending A and then B from the returned frontier equals appending A + B, from any frontier and count |
| `Merkle.DeadEntriesAreIrrelevant` | app/services/merkle_service.py:104-109 | frontier entries at unset bits never influence the root or the resulting frontier |
| `Merkle.ComputeRootFromLeaves` | app/services/merkle_service.py:129-136 | returns the perfect tree's root for every list that fits, the zero root for none, and errors otherwise |
| `Merkle.ComputeMerklePath` | app/services/merkle_service.py:139-150 | the level-by-level dictionary yields a path of length depth whose entries are the true siblings, and bad indices are refused |
| `Merkle.PathOpensRoot` | app/services/merkle_service.py:128-150 | folding a leaf up its path by the bits of its index gives exactly the root of the frontier loop |
| `Merkle.StateForCheckpoint` | app/services/merkle_service.py:153-162 | the stored frontier is reused only with matching tags, otherwise it is rebuilt from the prefix |
| `Merkle.InitialStateResumes` | app/services/merkle_service.py:124-126 | the initial state carries the tags that resuming asks for and is sound for no leaves |
| `Merkle.ResumeEqualsRebuild` | app/services/merkle_service.py:152-162 | resuming from a sound tagged checkpoint and rebuilding give the same root and frontier, and it is the full tree's root |
| `MerkleBinding.RootBindsResidues` | app/services/merkle_service.py:34-42 | if two trees hold no collision at a node, equal roots and equal residues of the padded lists are the same thing |
| `MerkleBinding.RootBinding` | app/services/merkle_service.py:94-136 | two lists of any lengths and leaves with one root collide at a node above every place where their padded leaves differ modulo the prime |
| `MerkleBinding.CanonicalRootBinding` | app/services/merkle_service.py:94-136 | different lists of one length with leaves below the prime and one root collide above a leaf where they differ |
| `MerkleBinding.ResiduesDetermineRoot` | app/services/merkle_service.py:34-42 | lists that agree modulo the prime have one root, whatever the digest |
| `MerkleBinding.NonCanonicalLeavesShareARoot` | app/services/merkle_service.py:41-42 | for every digest, the 64-digit texts of zero and of the prime differ and are leaves with the same root |
| `MerkleBinding.PathBinding` | app/services/merkle_service.py:94-150 | two openings of one root at one index to different residues collide at a step |
| `MerkleBinding.OpeningBinding` | app/services/merkle_service.py:94-150 | any path that opens a list's root at an index to another residue collides with the list's own path |
| `Hex.PrintInvertsRead` | app/services/merkle_service.py:82-96 | formatting the number a hexadecimal string denotes gives the string back |
| `Hex.ReadInvertsPrint` | app/services/merkle_service.py:82-96 | a number that fits the width is read back from its digits |
| `NoteParser.Session.NextLeafIndex` | app/services/note_parser.py:94-99 | one more than the largest stored leaf index, or zero |
| `NoteParser.Session.IndexDeposit` | app/services/note_parser.py:160-211 | validation, both duplicate checks, encryption failure and insertion of one deposit |
| `NoteParser.Session.IndexSpend` | app/services/note_parser.py:213-250 | validation, duplicate check, failures and insertion of one spend |
| `NoteParser.Session.ParseBatch` | app/services/note_parser.py:101-252 | the sorted loop with its running leaf index and counters leaves the fold of the batch, or its first error; `NoteOutcomes` says what that is |
| `NoteParser.BatchesCompose` | app/services/note_parser.py:123-252 | indexing A then B equals indexing A + B, counts and errors included, when every key of A is at most every key of B |
| `NoteParser.ArrivalOrderIsIrrelevant` | app/services/note_parser.py:123-130 | when events with equal keys are equal, the order of arrival does not matter |
| `NoteParser.ReplayIsANoOp` | app/services/note_parser.py:172-196 | any selection of processed events at any later state returns (0, 0) and changes nothing |
| `NoteParser.BatchAbsorbs` | app/services/note_parser.py:137-250 | after a finished batch every one of its events is malformed or already represented |
| `NoteParser.BatchesKeepWellFormed` | app/services/note_parser.py:94-252 | over any sequence of batches leaf indices are 0..n-1 in order and commitments, nullifiers and event hashes are distinct |
| `NoteParser.RowsCopyEvents` | app/services/note_parser.py:132-211 | the new rows copy new deposits at strictly ascending positions of the sorted batch, and the first new deposit is the first of them |
| `NoteParser.BatchAddsExactlyWhenNew` | app/services/note_parser.py:160-211 | a finished batch adds a leaf exactly when one of its valid deposits has an event hash and a commitment that are not stored |
| `NoteParser.SpendsComeFromEvents` | app/services/note_parser.py:239-248 | every new nullifier row copies a spend of the batch |
| `NoteParser.LeavesFollowLedgers` | app/models/shielded.py:63-66 | leaf indices follow ledger order after a batch exactly when they did before and no new deposit lies in a ledger before a stored one |
| `NoteParser.LeavesFollowPositions` | app/models/shielded.py:63-66 | leaf indices are strictly ascending in (ledger, position) exactly when they were before, every new deposit comes after the stored ones, and no two new deposits share a position (the last is necessary unless one repeats the other's hash or commitment) |
| `NoteOutcomes.ApplyByCases` | app/services/note_parser.py:75-250 | one event is skipped unless it is well-formed and not represented, refused when it is private and no encryptor is configured or a spend under a stored hash, and stored otherwise |
| `NoteOutcomes.BatchOrder` | app/services/note_parser.py:123-130 | a batch is indexed by ascending ledger and, within a ledger, ascending position |
| `NoteOutcomes.BatchFailsExactly` | app/services/note_parser.py:75-252 | a batch fails exactly when an index does not parse or an event it would index is private without an encryptor or a spend under a used hash; the first one in batch order decides the error |
| `NoteOutcomes.BatchStoresExactly` | app/services/note_parser.py:132-252 | a finished batch adds one row for every fresh event that repeats no indexed one before it, in batch order, and returns their numbers |
| `NoteOutcomes.BatchSucceedsExactly` | app/services/note_parser.py:75-252 | when events are told apart by hash, commitment and nullifier, success does not depend on their order: indices parse and no event is fatal against the tables before the batch |
| `NoteOutcomes.EncryptedBatchSucceeds` | app/services/note_parser.py:79-84 | with an encryptor, parsable indices and one nullifier per spend hash, a batch always succeeds |
| `NoteIndexer.UpdateRoot` | app/services/merkle_service.py:164-208 | adds one checkpoint of all stored leaves unless the ledger has one or nothing was added |
| `NoteIndexer.MaxLedgerIsLargest` | app/services/merkle_service.py:169 | without a given ledger the checkpoint is filed under the largest ledger of the new rows |
| `NoteIndexer.NoteDatabase.IndexRange` | app/tasks.py:771-854 | parse, checkpoint and commit happen together, or the committed tables stay as they were |
| `RangeOutcomes.OneEventIsSelected` | app/tasks.py:792-795 | an event is fetched exactly when its ledger lies in the range and it is a deposit or a spend |
| `RangeOutcomes.FetchFollowsChain` | app/tasks.py:803-818 | fetching a longer chain fetches its parts in order |
| `RangeOutcomes.RangeAddsItsEvents` | app/tasks.py:824-837 | every row a successful call adds to either table copies a deposit or spend of the chain in the range, and both counts are the rows added |
| `RangeOutcomes.RangeIsIndexed` | app/tasks.py:789-837 | after a successful call every well-formed deposit of the range has its event or commitment stored, and every well-formed spend its nullifier |
| `RangeOutcomes.RangeFailsExactly` | app/tasks.py:820-837 | a call fails exactly with its batch, or when it added leaves and the depth is none of 1 to 32 or the tree to checkpoint does not fit |
| `NoteIndexer.EveryRunKeepsInv` | app/tasks.py:824-837 | over every history of calls, at most one checkpoint per ledger, each the full-tree root of its first leaves |
| `NoteIndexer.CheckpointsStay` | app/tasks.py:824-837 | rows and checkpoints committed at any moment are unchanged at every later one |
| `NoteIndexer.StoredCheckpointsAreRebuilt` | app/services/merkle_service.py:152-190 | every stored state lacks the tags, so resuming rebuilds, reproduces the stored root and continues to the full root |
| `NoteIndexer.RunShape` | app/tasks.py:824-837 | the exact effect of a successful call: the batch's rows, and one covering checkpoint unless nothing was added or the ledger has one |
| `NoteIndexer.CoverageExactly` | app/tasks.py:826-835 | a successful call leaves some checkpoint covering every leaf exactly when its last ledger had none, if it brings a new deposit, and exactly when one covered every leaf before, if not |
| `NoteIndexer.LateDepositIsUncovered` | app/services/merkle_service.py:175-176 | a history of two calls on one range after which no checkpoint covers every leaf |
| `NoteIndexer.EarlierRangeBreaksOrder` | app/models/shielded.py:63-66 | a history of two calls after which leaf indices do not follow ledger order |
| `NoteIndexer.TiedDepositsShareAPosition` | app/services/note_parser.py:124-130 | two leaves copied from deposits of one ledger without positions are not strictly ascending |
| `NoteIndexer.RepeatChangesNothing` | app/tasks.py:824-837 | a call that finds only processed events returns (0, 0) and changes nothing |
| `NoteIndexer.SubrangeIsRepeat` | app/tasks.py:789-800 | calling again on part of a finished range is such a repeat |
| `NoteIndexer.ScheduledRunsAreCovered` | app/tasks.py:824-837 | over ascending ranges with repeats and failures, checkpoints ascend, the latest covers every leaf and leaves follow ledger order |
| `ShieldedPipeline.CheckpointBindsResidues` | app/services/merkle_service.py:164-196 | two databases with checkpoints of one root and any leaf counts have trees that collide above every leaf where the stored commitments differ modulo the prime |
| `ShieldedPipeline.ResiduesDetermineCheckpoint` | app/services/merkle_service.py:164-196 | checkpoints whose covered commitments agree modulo the prime have one root |
| `ShieldedPipeline.CheckpointBindsCommitments` | app/services/merkle_service.py:164-196 | two different commitments below the prime at one leaf index under checkpoints of one root lie below a collision |
| `ShieldedPipeline.ZeroAndPrimeShareACheckpoint` | app/services/note_parser.py:160-208 | for every digest and depth, two one-deposit databases with different commitments have the same root and leaf count |
| `KeyRotation.KeyRotationHandler.Start` | app/security/kms.py:734-744 | keeps an existing handle, else installs the new key; afterwards signing is possible and the scheduler runs |
| `KeyRotation.KeyRotationHandler.SignBegin` | app/security/kms.py:774-776 | accepted exactly when the current handle is active; the call then holds the current key and is counted, and a refused call changes nothing |
| `KeyRotation.KeyRotationHandler.SignEnd` | app/security/kms.py:793-795 | the key's count drops by exactly one, without the clamp, and the call no longer holds it |
| `KeyRotation.KeyRotationHandler.BeginRotation` | app/security/kms.py:825-837 | the key to replace is the one calls still get |
| `KeyRotation.KeyRotationHandler.CutOver` | app/security/kms.py:846-859 | calls get the new key at once; the old one goes to retirement exactly when no call holds it or the deadline has passed |
| `KeyRotation.KeyRotationHandler.DrainPoll` | app/security/kms.py:906-926 | retires exactly when no call holds the old key or the deadline has passed, and leaves calls and the current key alone |
| `KeyRotation.KeyRotationHandler.RotationFails` | app/security/kms.py:873-885 | records the failure, and calls keep getting the active key they got before |
| `KeyRotation.KeyRotationHandler.Retired` | app/security/kms.py:869-885 | records old key and drained count, and as new key the one calls get |
| `KeyRotation.KeyRotationHandler.Notified` | app/security/kms.py:885-892 | after the callback the scheduler polls again with the same key and history |
| `KeyRotation.KeyRotationHandler.Stop` | app/security/kms.py:746-755 | the scheduler is stopped; keys, calls and history stay as they are and signing stays possible |
| `KeyRotation.DrainedKeyIsNeverUsed` | app/security/kms.py:839-926 | in every interleaving a key retired after a drain that did not time out is held by no call and never handed out again |
| `KeyRotation.CounterIsExact` | app/security/kms.py:774-795 | the pending count is the number of in-flight calls in every reachable state, so the clamp never fires |
| `KeyRotation.SigningIsRefusedOnlyBeforeStart` | app/security/kms.py:928-935 | signing is refused exactly before the first start, whatever fails in a rotation |
| `KeyRotation.ForcedExactlyWhenHeld` | app/security/kms.py:906-918 | a key goes to retirement while held exactly when its drain hit the deadline |
| `KeyRotation.EachKeyRetiresOnce` | app/security/kms.py:861-885 | no key is reported retired twice, and every report names a key handed to retirement |
| `KeyRotation.CutOverCountsHolders` | app/security/kms.py:846-859 | the drained count is the number of calls that held the old key at cut-over |
| `KeyRotation.NoCallJoinsADrainingKey` | app/security/kms.py:846-859 | after cut-over the calls on the old key never increase beyond that number |
| `KeyRotation.RotationCanComplete` | app/security/kms.py:801-926 | from every reachable polling state and for every fresh key some run cuts over, drains and retires the old key, records one success and polls again with the new key current |
| `KeyRotation.StartLeadsToPolling` | app/security/kms.py:734-744 | a scheduler that never ran or was stopped can be started, and then polls |
| `KeyRotation.PhaseDecidesSteps` | app/security/kms.py:801-926 | in every reachable state the scheduler's possible steps depend only on where it is suspended |
| `Rebalancer.BuildRebalancingInstructions` | app/services/capital_rebalancer.py:36-91 | the plan of the request: one draft per strategy above the dust threshold over the sorted ids, sorted by leg and numbered |
| `Rebalancer.PlanIsLegs` | app/services/capital_rebalancer.py:86-89 | a plan is its withdrawals in name order and then its deposits in name order |
| `Rebalancer.PlanIsComplete` | app/services/capital_rebalancer.py:57-91 | each strategy at most once, steps 1..n, and exactly the strategies above the threshold |
| `Rebalancer.PlanMovesExactly` | app/services/capital_rebalancer.py:60-66 | a strategy is moved exactly when its weights, zero where missing, differ by more than 0.0001 |
| `Names.LeByFirstDifference` | app/services/capital_rebalancer.py:60 | strategies are listed in dictionary order: a prefix first, else the first difference decides |
| `Rebalancer.InstructionIsSelfContained` | app/services/capital_rebalancer.py:44-84 | weights, amounts, direction, vault and risk of an instruction agree with the request and each other |
| `Rebalancer.CashFloor` | app/services/capital_rebalancer.py:57-91 | with targets summing to no more than current weights, cash at every prefix stays above minus the dust, and above zero without dust |
| `Rebalancer.NeverShortExactly` | app/services/capital_rebalancer.py:47-50 | no prefix runs short exactly when the moved strategies do not gain weight in total |
| `Rebalancer.DustCanRunShort` | app/services/capital_rebalancer.py:47-66 | a balanced request whose plan runs short |
| `Rebalancer.PlanReachesTarget` | app/services/capital_rebalancer.py:57-91 | running a plan brings each strategy to its target, or leaves it within the threshold |
| `Rebalancer.ReplanIsEmpty` | app/services/capital_rebalancer.py:57-91 | planning again from the result gives the empty plan |
| `Rebalancer.CapitalRebalancer.ExecuteRebalancing` | app/services/capital_rebalancer.py:325-411 | COMPLETED exactly when the account lock was obtained and every movement ran in order, with one hash each and the summed cost; a refused lock or a failed movement records FAILED without hashes and leaves the table alone |
| `Rebalancer.CostsAdd` | app/services/capital_rebalancer.py:377-380 | the recorded cost is the sum of the single costs |
| `Rebalancer.CapitalRebalancer.UpdateAllocations` | app/services/capital_rebalancer.py:487-520 | every target row gets its share of the capital and the target as both weights, and every other row is kept |
| `Rebalancer.NothingLeftExactly` | app/services/capital_rebalancer.py:315-323 | after an update, planning from the table's own weights for the same target is empty exactly when rows outside the target carry no more than dust |
| `Rebalancer.CompletedLeavesNothing` | app/services/capital_rebalancer.py:371-411 | after a completed execution on a table whose rows lie in the target, nothing is left to move |
| `Rebalancer.CapitalAfterUpdate` | app/services/capital_rebalancer.py:487-520 | the table totals capital times target weight plus what stale rows claim |
| `Rebalancer.CapitalIsConservedExactly` | app/services/capital_rebalancer.py:487-520 | amounts total the capital exactly when stale rows claim what the target leaves; a full target summing to 1 conserves it |
| `Rebalancer.StaleRowIsCountedTwice` | app/services/capital_rebalancer.py:306-313 | a table whose total grows from 10 to 16 |
| `OpenApi.ResolvedSchema` | scripts/check_openapi.py:39-43 | the loop ends when alias chains end, at the schema that the chain of references leads to, which is no local reference |
| `OpenApi.ResolvesToExactly` | scripts/check_openapi.py:39-43 | resolving gives the end of the chain of stored schemas that local references name, and the empty schema exactly when the last name is not stored |
| `OpenApi.SchemaBreaks` | scripts/check_openapi.py:46-82 | the recursion ends when the references of either document are acyclic and returns the breaks in order |
| `OpenApi.BreakIsFlaw` | scripts/check_openapi.py:46-82 | every reported break is a flaw at the end of a path common to both documents |
| `OpenApi.FlawIsBreak` | scripts/check_openapi.py:46-82 | every such flaw is reported |
| `OpenApi.NoBreaksExactlyWhenCompatible` | scripts/check_openapi.py:46-82 | the break list is empty exactly when no common path ends at a flaw |
| `OpenApi.WalkReachesBoth` | scripts/check_openapi.py:53-81 | what is compared along a path is what the path reaches in each document on its own |
| `OpenApi.NoBreaksExactlyWhenAllAgree` | scripts/check_openapi.py:46-82 | the break list is empty exactly when every path of both documents reaches schemas with equal types, no lost enumeration value, no lost property and the same required properties |
| `OpenApi.RetypedIsReported` | scripts/check_openapi.py:53-57 | a type changed behind a reference is reported |
| `OpenApi.CompatibleWithItself` | scripts/check_openapi.py:46-82 | a schema is compatible with itself |
| `OpenApiGate.ParameterBreaks` | scripts/check_openapi.py:97-109 | exactly the breaks of one parameter key |
| `OpenApiGate.BodyBreaks` | scripts/check_openapi.py:111-120 | exactly the breaks of the request body |
| `OpenApiGate.ResponseBreaks` | scripts/check_openapi.py:122-129 | exactly the breaks of one response status |
| `OpenApiGate.CompatibilityBreaks` | scripts/check_openapi.py:85-130 | the list holds exactly the breaks between two documents |
| `OpenApiGate.EveryDocumentFits` | scripts/check_openapi.py:85-130 | acyclic references are all the comparison of two documents needs to end |
| `OpenApiGate.GatePassesExactlyCompatible` | scripts/check_openapi.py:85-130 | there is no break exactly when every old operation is kept and compatible |
| `OpenApiGate.DocumentMatchesItself` | scripts/check_openapi.py:85-130 | any document compared with itself has no breaks |
| `DeadLetterQueue.DelaysNeverShrink` | app/queue/dlq.py:153-156 | with a factor of at least one, no later attempt waits less |
| `DeadLetterQueue.DelaysGrowByFactor` | app/queue/dlq.py:153-156 | the first delay is the base delay and each further one the factor times the last, up to the ceiling |
| `DeadLetterQueue.PushKeepsRetained` | app/queue/dlq.py:408-412 | append and LTRIM keep exactly what the size keeps of all pushes |
| `DeadLetterQueue.SizeBoundExactly` | app/queue/dlq.py:301-302 | the documented size bound holds for every list that pushes can leave exactly when the size is positive |
| `DeadLetterQueue.RedisDlq.Push` | app/queue/dlq.py:357-438 | the entry carries the given payload, source, error and attempt, the policy's delay and permanence; ids count up from one and the list stays what the size keeps of everything pushed |
| `DeadLetterQueue.RedisDlq.GetEntry` | app/queue/dlq.py:475-491 | an id is found exactly while its entry is retained, and then it is that entry |
| `DeadLetterQueue.RedisDlq.RetryWithBackoff` | app/queue/dlq.py:538-623 | true exactly when some attempt succeeds; one entry per failed attempt, numbered from 1; one policy delay per retry |
| `DeadLetterQueue.OnlyTheLastIsPermanent` | app/queue/dlq.py:228-250 | only attempt max_attempts is permanent and without a retry time; the others wait the policy's delay, and all carry the payload, source and their own error |
| `DeadLetterQueue.TotalSleepIsBounded` | app/queue/dlq.py:611-621 | total sleep is at most (max_attempts - 1) times the ceiling |
| `Heatmap.BuildLiquidationHeatmap` | app/analytics/liquidation_heatmap.py:22-45 | ascending buckets for exactly the occupied slots with their totals, or the error for bad input |
| `Heatmap.ExactlyOneBucket` | app/analytics/liquidation_heatmap.py:35-42 | a price lies in exactly one half-open bucket |
| `Heatmap.BucketsAreDisjoint` | app/analytics/liquidation_heatmap.py:40-44 | buckets are in order and do not overlap |
| `Heatmap.HeatmapConserves` | app/analytics/liquidation_heatmap.py:27-44 | exposure per side and counts over all buckets are those of the in-range positions |
| `Heatmap.BucketHoldsItsPrices` | app/analytics/liquidation_heatmap.py:31-44 | a bucket holds the exposure of the long positions, and of all others, and the number of those between its prices and the requested bounds |
| `Heatmap.PositionIsHeld` | app/analytics/liquidation_heatmap.py:31-38 | every position within the requested bounds lies between the prices of a bucket |
| `Heatmap.SidesAreConserved` | app/analytics/liquidation_heatmap.py:36-44 | long exposures sum to those of the long positions within the bounds, short ones to all others, counts to their number |
| `Heatmap.CoarseningMergesBuckets` | app/analytics/liquidation_heatmap.py:26-45 | each bucket of the map at k times the size holds the sums of the finer map's buckets between its prices, and is listed exactly when they hold something |
| `Heatmap.FineLiesInCoarse` | app/analytics/liquidation_heatmap.py:26-45 | every bucket of the finer map lies inside one bucket of the coarser map |
| `AnchorSettlement.RemittanceTable.MarkCompleted` | app/services/anchor_status_poller.py:127-139 | one still-pending row moves, and true is returned exactly then |
| `AnchorSettlement.RemittanceTable.ProcessRow` | app/services/anchor_status_poller.py:76-88 | a row is marked only when the trimmed, lower-cased answer means completed |
| `AnchorSettlement.CompletedAnswersExactly` | app/services/anchor_status_poller.py:24-37 | an answer marks a row exactly when it is text whose part between white space is one of the five completed words in any letter case |
| `AnchorSettlement.RemittanceTable.TransitionRemittanceStatus` | app/adapters/anchor.py:67-102 | every row matched by id or reference gets the status and no other row changes; a database failure is swallowed and changes nothing |
| `AnchorSettlement.RemittanceTable.ReceiveWebhook` | app/adapters/anchor.py:130-141 | refused without id or status, else the upper-cased status is written if the database takes it |
| `AnchorSettlement.UpperIsNeverPending` | app/adapters/anchor.py:138-141 | an upper-cased status is never the pending one |
| `AnchorSettlement.UpperByCharacters` | app/adapters/anchor.py:138 | upper-casing moves the letters a to z to their capitals, keeps every other character, and is idempotent |
| `AnchorSettlement.PendingIsNeverRestored` | app/adapters/anchor.py:138-141 | in every interleaving a row that is not pending never becomes pending |
| `AnchorSettlement.CompletionIsAnnouncedAtMostOnce` | app/services/anchor_status_poller.py:64-88 | in every interleaving a remittance leaves pending at most once and is published at most once |
| `AnchorSettlement.AnnouncedExactlyOnceUnlessLost` | app/services/anchor_status_poller.py:76-95 | once polls have ended, a row completed by a poller is published exactly once, unless its update raised after committing, publishing raised or the poll was cancelled |
| `AnchorSettlement.CompletionCanHappen` | app/services/anchor_status_poller.py:64-88 | from every reachable state an idle poller can complete any pending row with a reference, publish it once and be idle again |

## Left out

- Hash internals: SHA-256 is a parameter; no property of it is assumed.
- The native tree engine behind a ctypes boundary: only the Python append is modelled.
- `_element` on text that is not 64 lower-case hexadecimal digits: elements are numbers, and stored commitments have been validated.
- Encryption: an opaque step that fails without an encryptor; a row records only that an envelope was stored.
- SQL ordering in `_index_range`: `parse_batch` sorts again, so the order of the fetched rows only breaks ties and is the order of the model's event list.
- `sign_bytes`, `get_key_by_id` and audit signing: they bypass the pending counter, so the drain guarantee is about `sign_envelope`.
- Key expiry times and clocks: when a key is due and when a deadline has passed are free choices of the run.
- Floating-point and Decimal rounding in the rebalancer, the backoff delays and the heatmap: arithmetic is exact.
- Database failures inside `_update_allocations` and Redis failures inside `push`.
- OpenApi.SchemaBreaks: pairs of documents in which both have cyclic references are excluded, though the source ends when the cycles never run in step; so is a document with a circle of schemas that are themselves references, on which it does not end.
- OpenApiGate.CompatibilityBreaks: states which breaks are listed, not the sorted order of operations, parameters and statuses, and not the message texts.
- Upper- and lower-casing of letters outside ASCII in anchor statuses.
- `handle_dlq_replay`, `stats` and `purge`: listing and deleting only.
- Routers, telemetry, metrics, ORM and migration code, the portfolio optimizer (its target is a parameter), the TypeScript services.
