# Verification of the deterministic concurrency-control protocols

Six protocols share one runtime: Aria, PRDCC (which adds conflict prediction and
micro-blocks to Aria's validation), Bohm, DOCC, Calvin and two-phase locking. They
promise the same thing: whatever the workers do at the same time, the table ends as
some serial execution of the committed transactions leaves it. This project models the
protocols and proves that promise, with what it rests on.

A transaction is an id, a read set, a write set, and two functions of the values read:
how its procedure ends, and what it writes. A table is a map from keys to values.

| module | what it is about |
|---|---|
| `Transactions`, `PlannedBatch`, `Strides`, `Sums` | transactions, serial runs, dealing positions out to workers, sums of steps left |
| `AriaHelper`, `Aria`, `SnapshotIsolation` | the reservation word and its swap loops; the commit rule and the constructive serial order; what the snapshot-isolation switch lets through |
| `ProdccExecutor`, `ProdccMicroBlock`, `MacroBatch`, `ProdccManager` | the five phases of a micro-block, one worker after another; epochs and whole runs, the absence of validation aborts |
| `MicroBlockInterleaving`, `MicroBlockProgress`, `InterleavedEpochs` | the same phases in any interleaving of the workers' steps, that they come to an end, and any number of them one after another |
| `DataSummary`, `ConflictPredictor`, `MicroBlockScheduler` | the two-level key summary, the range walk, the greedy schedule |
| `KeyConverter`, `TpccQuery`, `TpccTransaction`, `TpccRows`, `TpccPrediction` | the numbering of TPC-C's rows, the ranges its queries declare, the rows its procedures access, and an epoch of them |
| `MvccHashMap`, `MvccTable`, `Bohm`, `BohmWordFirst`, `Docc` | version lists, and the two protocols on top of them; what Bohm's order of stores costs it |
| `TwoPLHelper`, `TwoPL`, `TwoPLProgress` | the lock word and who is refused; strict locking without waiting, and who can commit |
| `Calvin`, `CalvinDispatch`, `CalvinProgress` | ordered locking, which worker runs what, and when it comes to its end |
| `PhaseBarrier`, `ScheduleAlignment`, `VectorExchange`, `AlignedBarrier` | what keeps the phases of all nodes apart, and equal in number and kind |

Code that one thread runs is a method of a class with the source's fields, proved
against a specification function. Code that several threads run at once is a state
machine with one transition for each shared access, and its theorems hold in every run.
PRDCC's phases appear in both forms: the methods of `ProdccManager` run the workers'
shares one after another, and `MicroBlockInterleaving` lets every transaction of a
micro-block take its own steps, one load, swap, write or store at a time, and proves
that every complete run ends in the table, the commits and the words that the methods
prove (`MicroBlockInterleaving.EveryRunEndsSerially`). Every run can be completed
(`MicroBlockProgress.EveryRunCanFinish`), and any number of micro-blocks and epochs run that
way one after another leave the table of the serial run (`InterleavedEpochs.ChainIsSerial`).

## What the proofs found

- The circular hash of the sparse verifier is not free of false negatives.
  `protocol/Prodcc/DataSummary.h:5-9` asks for that property; a range that laps the circle
  loses keys. With Position(x) = x + x / R and d = Position(end) - Position(start), a range
  is safe exactly when d < R, or d % R == R - 1, or d == 2R - 2 and
  (Position(start) + R) % (R + 1) == 0 (`DataSummary.NeverMissesIffCovers`). It is monotone
  over all its parts exactly in the first two cases (`DataSummary.MonotoneIffSafe`). The
  two-iterator walk is exact on sorted lists whose pairwise intersections are of these two
  kinds (`ConflictPredictor.ConflictPredictor.WalkIsMeet`), so it is whenever the ranges of one
  of the two lists have d < R; and every other pair of ranges occurs in sorted lists on which
  it is not (`ConflictPredictor.ConflictPredictor.UnsafePairBreaks`). Both benchmarks declare
  their domain dense and never ask this verifier.
- `abort_lock` is never set in Aria's or PRDCC's own files, so `cleanup_batch` finds nothing to
  retry: a transaction that failed its validation is dropped with its batch.
- The snapshot-isolation switch admits write skew (`Aria.SnapshotIsolationWriteSkew`). The
  committed transactions have a conflict-free order exactly when no cycle of them reads what
  the next one writes (`SnapshotIsolation.ConflictFreeIffAcyclic`).
- Calvin's lock manager waits for itself, in every run, when a transaction locks a key twice
  that it writes, or any key more than 511 times. Without such a transaction every run can
  be brought to its end (`CalvinProgress.FinishesIffLockable`).
- Under two-phase locking a transaction that locks a key twice and writes it refuses itself:
  `protocol/TwoPL/TwoPLTransaction.h:127-172` asks for every entry of the read set. It aborts at
  every attempt; every other ready transaction can commit (`TwoPLProgress.CommittableIff`).
- `core/Table.h:304-314` sets the word of a row to 0, Bohm's sign that the row is ready,
  before it copies the value. A Bohm reader that comes between the two takes the
  placeholder's value. With a given number of workers that can happen exactly when a
  transaction reads a key whose last earlier writer belongs to another worker
  (`BohmWordFirst.OnTimeIff`); it can for some number of workers exactly when a transaction of
  the batch reads a key that an earlier one writes (`BohmWordFirst.AlwaysOnTimeIff`). Runs in
  which it does not are serial. `Bohm` itself takes the two stores for one.
- DOCC with retry stops the whole program at the first transaction that was ready on the
  snapshot, was overtaken by a committed one, and is not ready when it runs again
  (`Docc.DOCCExecutor.ValidateAndCommitTransactions`).
- A new order that rolls back declares its district for writing and never writes it, and a
  payment by last name declares all customers of a district; in all other cases the declared
  rows are exactly the accessed ones (`TpccTransaction.DeclaredExactlyIff`).
- Bohm's position mask has 24 bits while positions may have 32 (`MvccTable.TidRoundTrip`).
- `partition_into_micro_blocks` has a branch for an empty block, and `L1Filter::query` one for
  clamped ends out of order; neither can be reached.

## Model

| member | source | states |
|---|---|---|
| `Transactions.SerialInstalls` | protocol/Aria/AriaExecutor.h:324-415 | an order in which nothing is read after it was written and no key is written twice, run one by one, leaves the writes every member computed from the snapshot and nothing else |
| `Transactions.SerialReads` | protocol/Aria/AriaExecutor.h:324-415 | in such an order every member reads what it read in the snapshot |
| `Transactions.InstalledUnique` | protocol/Aria/AriaExecutor.h:340-413 | the table the committed writes leave does not depend on the order in which they were made |
| `Transactions.EffectPrefixAt` | protocol/Prodcc/Prodcc.h:40-59 | with distinct keys, the q-th key of the write set ends with the q-th value |
| `AriaHelper.PackUnpack` | protocol/Aria/AriaHelper.h:96-136 | the three fields read back what was packed |
| `AriaHelper.UnpackPack` | protocol/Aria/AriaHelper.h:96-136 | a word is its three fields and nothing more |
| `AriaHelper.FieldsIndependent` | protocol/Aria/AriaHelper.h:96-121 | setting one field leaves the other two alone |
| `AriaHelper.FieldsDetermineWord` | protocol/Aria/AriaHelper.h:123-136 | two words with the same fields are the same word |
| `AriaHelper.ReserveSummarizes` | protocol/Aria/AriaHelper.h:46-94 | one reservation on a word that holds the minimum ids of its readers and writers of the epoch, or older content, leaves one that does for one id more |
| `AriaHelper.SummaryUnique` | protocol/Aria/AriaHelper.h:46-94 | for given readers and writers there is only one value of the current-epoch fields |
| `AriaHelper.RaceStepKeepsInv` | protocol/Aria/AriaHelper.h:49-67 | any single load, successful or failed swap of any caller keeps the invariant of the reservation race |
| `AriaHelper.ReservationIsMinimum` | protocol/Aria/AriaHelper.h:46-94 | after all calls of an epoch on a word have returned, in any interleaving of their loads and swaps, it holds the minimum reader id and the minimum writer id, 0 for none |
| `AriaHelper.ReservationOrderIndependent` | protocol/Aria/AriaHelper.h:46-94 | two races of the same calls, however interleaved, end with the same word |
| `AriaHelper.RaceMakesProgress` | protocol/Aria/AriaHelper.h:49-67 | every load that gives up and every successful swap brings the race nearer to its end |
| `AriaHelper.RaceNeverStuck` | protocol/Aria/AriaHelper.h:49-67 | until all calls have returned some caller can move on |
| `Aria.FlagsFromWords` | protocol/Aria/AriaExecutor.h:263-321 | the tests on a word that summarizes a batch say exactly whether a smaller id writes, or reads, the key |
| `Aria.RefusedIff` | protocol/Aria/AriaExecutor.h:364-408 | a transaction that reserves is refused if and only if a smaller id writes what it writes or, without snapshot isolation, one writes what it reads and, with reordering, one also reads what it writes; one that does not reserve never is |
| `Aria.SerialOrderConflictFree` | protocol/Aria/AriaExecutor.h:364-408 | in the order built from the flags (unreserved first; by id, the largest last if it has no raw and first otherwise) no committed transaction reads or writes what an earlier one wrote |
| `Aria.SerialOrderIsPermutation` | protocol/Aria/AriaExecutor.h:353-408 | that order runs each committed transaction exactly once and no other |
| `Aria.BatchSerializable` | protocol/Aria/AriaExecutor.h:204-407 | the table holding exactly the committed writes equals the serial run in that order, and each transaction reads there what it read in the snapshot |
| `Aria.IdOrderWithoutReordering` | protocol/Aria/AriaExecutor.h:393-406 | without reordering and without the read-only switch the order is that of the ids |
| `Aria.SmallestCommits` | protocol/Aria/AriaExecutor.h:364-408 | the smallest id of a batch always commits |
| `Aria.CommittedDisjoint` | protocol/Aria/AriaExecutor.h:364-368 | no two committed transactions write the same key |
| `Aria.WriteStepKeepsInv` | protocol/Prodcc/Prodcc.h:41-59 | one write of one committing transaction keeps what the others have written so far |
| `Aria.FinalizeInterleavingsInstall` | protocol/Prodcc/ProdccExecutor.h:476-542 | however the workers interleave the single writes of the committed transactions, all of them end up installed |
| `Aria.CrossingCopiesCommit` | protocol/Aria/AriaExecutor.h:370-378 | with the snapshot-isolation switch two crossing copies commit together |
| `Aria.SnapshotIsolationWriteSkew` | protocol/Aria/AriaExecutor.h:370-378 | and the table they leave is that of neither serial order, so the switch is outside the serializability theorem |
| `SnapshotIsolation.LastExists` | protocol/Aria/AriaExecutor.h:370-378 | among transactions without a cycle one reads nothing that another one writes |
| `SnapshotIsolation.OrderExists` | protocol/Aria/AriaExecutor.h:370-378 | transactions that write different keys and form no cycle have a conflict-free order |
| `SnapshotIsolation.OrderMeansAcyclic` | protocol/Aria/AriaExecutor.h:370-378 | and with such an order there is no cycle |
| `SnapshotIsolation.ConflictFreeIffAcyclic` | protocol/Aria/AriaExecutor.h:370-378 | with the switch on or off, the committed transactions of a batch have a conflict-free order if and only if no cycle of them reads what the next one writes |
| `SnapshotIsolation.OrderIsSerial` | protocol/Aria/AriaExecutor.h:370-378 | in any such order, run one by one, they read what they read in the snapshot and leave the table they left |
| `SnapshotIsolation.NeverCyclicWithout` | protocol/Aria/AriaExecutor.h:380-407 | with the switch off there never is a cycle |
| `SnapshotIsolation.CrossingCopiesCycle` | protocol/Aria/AriaExecutor.h:370-378 | the two crossing copies are one |
| `Strides.NextStride` | protocol/Prodcc/ProdccExecutor.h:379 | stepping by the number of workers visits exactly the positions of one worker, in order |
| `ProdccExecutor.ReserveKey` | protocol/Prodcc/ProdccExecutor.h:221-250 | reserving one key changes its word only |
| `ProdccExecutor.ProdccExecutor.ProcessRequests` | protocol/Prodcc/ProdccTransaction.h:163-191 | the reads, done from the last entry to the first, are the values of the table |
| `ProdccExecutor.ProdccExecutor.ExecuteTransactions` | protocol/Prodcc/ProdccExecutor.h:372-407 | a worker runs its own transactions, marks those that abort, and touches no other |
| `ProdccExecutor.ProdccExecutor.ReserveTransaction` | protocol/Prodcc/ProdccExecutor.h:204-252 | from words that summarize some transactions to words that summarize one more |
| `ProdccExecutor.ProdccExecutor.ReserveTransactions` | protocol/Prodcc/ProdccExecutor.h:409-451 | a worker reserves for exactly its transactions that are still active after their second run |
| `ProdccExecutor.ProdccExecutor.AnalyzeDependency` | protocol/Prodcc/ProdccExecutor.h:254-312 | raw, war and waw are set exactly when some key's word shows a smaller id; the early stop of the first loop changes nothing |
| `ProdccExecutor.ProdccExecutor.AnalyzeTransactions` | protocol/Prodcc/ProdccExecutor.h:453-474 | a worker judges its own active transactions only |
| `ProdccExecutor.ProdccExecutor.Commit` | protocol/Prodcc/Prodcc.h:37-62 | the write loop adds the transaction's effect to the table |
| `ProdccExecutor.ProdccExecutor.FinalizeTransaction` | protocol/Prodcc/ProdccExecutor.h:486-535 | commits, and adds the effect to the table, when waw is not set and, without snapshot isolation, raw is not or, with reordering, war is not; otherwise it marks the transaction delayed and writes nothing |
| `ProdccExecutor.ProdccExecutor.FinalizeTransactions` | protocol/Prodcc/ProdccExecutor.h:476-542 | after a worker's share the table holds the committed writes of all shares so far |
| `ProdccExecutor.ProdccExecutor.CleanupTransactionMetadata` | protocol/Prodcc/ProdccExecutor.h:314-341 | exactly the words of the transaction's own keys are zero afterwards |
| `ProdccExecutor.ProdccExecutor.CleanupTransactions` | protocol/Prodcc/ProdccExecutor.h:544-567 | a worker's share of the cleanup zeroes the words of its transactions and no others |
| `ProdccMicroBlock.AnalysisOfOne` | protocol/Prodcc/ProdccExecutor.h:254-312 | on words that summarize the block, the flags are raw, war and waw of the block, and the decision is the commit rule |
| `ProdccMicroBlock.AnalysisOfBlock` | protocol/Prodcc/ProdccExecutor.h:453-521 | the analysis grants exactly the transactions the commit rule grants |
| `ProdccMicroBlock.FinalizedAreCommitted` | protocol/Prodcc/ProdccExecutor.h:476-542 | what finalize leaves active is what committed |
| `ProdccMicroBlock.CleanupLeavesStale` | protocol/Prodcc/ProdccExecutor.h:314-341 | after the cleanup no word holds a reservation of the current epoch |
| `ProdccMicroBlock.NextEpochIsStale` | protocol/Aria/AriaHelper.h:55-57 | reservations of one epoch are out of date in the next, so Aria needs no cleanup |
| `ProdccMicroBlock.BlockOutcome` | protocol/Prodcc/ProdccExecutor.h:498-535 | the block ends with the table of its serial order and nobody marked for retry |
| `ProdccMicroBlock.EndInAccesses` | protocol/Prodcc/ProdccExecutor.h:254-535 | at the end of a block exactly those have committed whose procedure ended ready and whom no smaller id among the ready ones keeps out by what it reads and writes |
| `MicroBlockInterleaving.ReserveKeepsInv` | protocol/Aria/AriaHelper.h:46-94 | any load, successful or failed swap of any transaction on any key keeps every word the summary of the accesses reserved so far |
| `MicroBlockInterleaving.IdsComplete` | protocol/Prodcc/ProdccExecutor.h:409-451 | when all are through the reserve phase, these are the accesses of the transactions that survived their run and reserve at all |
| `MicroBlockInterleaving.WriteKeepsInv` | protocol/Prodcc/Prodcc.h:41-59 | any single write of any committing transaction keeps the table that of the writes made so far |
| `MicroBlockInterleaving.CleanKeepsInv` | protocol/Prodcc/ProdccExecutor.h:314-341 | so does any single store of the cleanup for the words |
| `MicroBlockInterleaving.StepKeepsInv` | protocol/Prodcc/ProdccExecutor.h:343-370 | every step of every worker in every phase, and every barrier between two phases, keeps the invariant |
| `MicroBlockInterleaving.EveryRunEndsSerially` | protocol/Prodcc/ProdccExecutor.h:372-567 | every complete run of a micro-block, however its workers interleave their single accesses, commits what the commit rule lets commit, ends with the table of the block's serial order and leaves no current-epoch reservation |
| `MicroBlockProgress.NeverStuck` | protocol/Prodcc/ProdccExecutor.h:372-567 | until a micro-block is over some worker has a step that is not a spurious failure, and that brings the block nearer to its end |
| `MicroBlockProgress.StepsLeaveLess` | protocol/Prodcc/ProdccExecutor.h:372-567 | every step of every worker but a spurious failure brings the block nearer to its end, failed swaps included |
| `MicroBlockProgress.EveryRunCanFinish` | protocol/Prodcc/ProdccExecutor.h:372-567 | every run of a micro-block, however far it has come, can be brought to its end |
| `InterleavedEpochs.ChainIsSerial` | protocol/Prodcc/ProdccManager.h:392-442 | any number of micro-blocks over any number of epochs, each in any interleaving of its workers, leave the table of their concatenated serial orders, and commit in each block what the commit rule lets commit |
| `InterleavedEpochs.HarmlessChain` | protocol/Prodcc/ProdccExecutor.h:498-535 | with the blocks of a harmless schedule nobody is aborted by the validation, and everybody whose procedure does not roll back runs once |
| `InterleavedEpochs.NextBlockCanRun` | protocol/Prodcc/ProdccManager.h:420-437 | after any such blocks the next one can always be run to its end, in the same epoch or a later one |
| `MacroBatch.NumberedValid` | protocol/Prodcc/ProdccExecutor.h:155-158 | ids i + 1 are a valid batch as long as they fit 20 bits |
| `MacroBatch.OneMoreBlock` | protocol/Prodcc/ProdccManager.h:420-437 | the serial order of a run grows by the serial order of the next micro-block |
| `MacroBatch.RunOrderConcat` | protocol/Prodcc/ProdccManager.h:392-440 | the order of two runs one after the other is the concatenation of their orders, the second from the table the first left |
| `MacroBatch.NotForbiddenIsHarmless` | protocol/Prodcc/ProdccManager.h:263-275 | two transactions the schedule lets into one block have no conflict that the validation looks for |
| `MacroBatch.HarmlessNeverAborts` | protocol/Prodcc/ProdccExecutor.h:498-521 | in such a block raw and waw are false (war too without reordering) for everybody who reaches the validation, so everybody commits |
| `MacroBatch.ScheduledAreHarmless` | protocol/Prodcc/ProdccManager.h:178-298 | prediction, labels and greedy pass together give such blocks, for any toxic relabelling, when the ranges cover the accesses |
| `MacroBatch.EverybodyCommits` | protocol/Prodcc/ProdccExecutor.h:498-535 | without validation aborts the serial order of an epoch runs every transaction whose procedure does not roll back, each once, and no other |
| `ProdccManager.ProdccManager.RunMicroBlock` | protocol/Prodcc/ProdccManager.h:420-437 | the five phases turn the table into that of the block's serial order and leave no current-epoch reservation |
| `ProdccManager.ProdccManager.RunMacroBatch` | protocol/Prodcc/ProdccManager.h:420-437 | the micro-blocks of an epoch, run on one another, leave the table of their concatenated serial orders |
| `ProdccManager.ProdccManager.CleanupBatch` | protocol/Prodcc/ProdccManager.h:508-531 | the transactions marked for retry, and only they, move to the front and are counted |
| `ProdccManager.NoneMarked` | protocol/Prodcc/ProdccManager.h:508-531 | as no phase marks anybody for retry the count is always 0: a delayed transaction is not run again |
| `ProdccManager.CountsAre` | protocol/Prodcc/ProdccManager.h:508-531 | the counts of delayed and valid transactions are numbers of positions, and those to schedule are the ones not marked "no retry" |
| `ProdccManager.ProdccManager.ReadSnapshot` | protocol/Prodcc/ProdccExecutor.h:188-213 | the first positions keep what is to be retried, all others get a fresh query, and all are numbered from 1 |
| `ProdccManager.ProdccManager.BuildTxnsToSchedule` | protocol/Prodcc/ProdccManager.h:96-109 | the transactions not marked "no retry", in their order |
| `ProdccManager.AllScheduled` | protocol/Prodcc/ProdccManager.h:96-109 | without such marks that is the whole array |
| `ProdccManager.ProdccManager.BuildPredicted` | protocol/Prodcc/ProdccManager.h:178-298 | each transaction is in the first block in which it clashes with nobody before it, and no block does harm when the ranges cover the accesses |
| `ProdccManager.ProdccManager.BuildSchedule` | protocol/Prodcc/ProdccManager.h:414-420 | each transaction of the batch exactly once: with prediction in the first block in which it clashes with nobody before it, without in slices of the batch size in order |
| `ProdccManager.ProdccManager.RecordEnds` | protocol/Prodcc/ProdccManager.h:420-437 | everybody who ran stands in the array as one of its ends, all others as before |
| `ProdccManager.ProdccManager.RunEpoch` | protocol/Prodcc/ProdccManager.h:396-439 | one epoch: exact partition, cut as asked, table of the serial order, without prediction the outcome of one block when the batch is no larger than a block, and no validation abort at all when prediction is on and the ranges cover the accesses |
| `ProdccManager.ProdccManager.Run` | protocol/Prodcc/ProdccManager.h:392-442 | over any number of epochs every schedule is cut as asked, and the final table equals the serial run of the concatenated per-block orders |
| `MicroBlockScheduler.PassIsPermutation` | protocol/Prodcc/ProdccManager.h:255-283 | a greedy pass loses nobody and duplicates nobody |
| `MicroBlockScheduler.PassSplits` | protocol/Prodcc/ProdccManager.h:255-290 | the first remaining transaction always enters, so the branch for an empty block is dead and the loop ends |
| `MicroBlockScheduler.PassHasReasons` | protocol/Prodcc/ProdccManager.h:259-282 | nobody in a block forbids anybody after it, and everybody postponed is forbidden by a smaller id in the block |
| `MicroBlockScheduler.ScheduleIsPartition` | protocol/Prodcc/ProdccManager.h:244-298 | for any graph the micro-blocks are an exact partition of the input |
| `MicroBlockScheduler.ScheduledBlocksAreGood` | protocol/Prodcc/ProdccManager.h:244-298 | no block is empty, ids ascend inside each, and no pair in it carries a forbidden label |
| `MicroBlockScheduler.PostponedForReason` | protocol/Prodcc/ProdccManager.h:255-296 | a transaction of a later block is forbidden by a smaller id of every earlier block |
| `MicroBlockScheduler.ChainThroughBlocks` | protocol/Prodcc/ProdccManager.h:255-296 | so there are never more blocks than the longest chain of forbidden edges is long |
| `MicroBlockScheduler.BlocksBySeparation` | protocol/Prodcc/ProdccManager.h:255-296 | on the edges themselves: whoever is in a block has from every earlier block an edge of a smaller id labelled WAW or RAW, or WAR without reordering, and from nobody before it in its own |
| `MicroBlockScheduler.OneBlockIff` | protocol/Prodcc/ProdccManager.h:255-296 | all share one block if and only if there is no such edge between any two of them |
| `MicroBlockScheduler.AntidependenciesShareABlock` | protocol/Prodcc/ProdccManager.h:269-275 | with reordering a graph with WAR edges only gives one block |
| `MicroBlockScheduler.MicroBlockScheduler.ForbidsIsLabel` | protocol/Prodcc/ProdccManager.h:208-241 | after all workers are done a pair is forbidden exactly when its label is |
| `MicroBlockScheduler.MicroBlockScheduler.ForbidsIsClash` | protocol/Prodcc/ProdccManager.h:208-241 | and exactly when the pair is relabelled, or the walks find writes against writes, writes against reads or, without reordering, reads against writes |
| `MicroBlockScheduler.MicroBlockScheduler.ClashIsMeet` | protocol/Prodcc/ProdccManager.h:120-132 | on sorted lists with safe intersections: when data lies where these ranges meet |
| `MicroBlockScheduler.MicroBlockScheduler.ScheduleIsFirstFit` | protocol/Prodcc/ProdccManager.h:178-298 | each transaction clashes with somebody before it in every earlier block and with nobody before it in its own |
| `MicroBlockScheduler.MicroBlockScheduler.ConflictsOf` | protocol/Prodcc/ProdccManager.h:209-224 | the edges one worker collects for one transaction |
| `MicroBlockScheduler.MicroBlockScheduler.PartitionTask` | protocol/Prodcc/ProdccManager.h:178-241 | a worker draws exactly the rows of its own positions |
| `MicroBlockScheduler.MicroBlockScheduler.RunPartitionPhase` | protocol/Prodcc/ProdccManager.h:111-118 | all workers together label every pair |
| `MicroBlockScheduler.MicroBlockScheduler.ShouldPostpone` | protocol/Prodcc/ProdccManager.h:259-276 | the nested loops with their breaks decide whether somebody in the block forbids the transaction |
| `MicroBlockScheduler.MicroBlockScheduler.PartitionIntoMicroBlocks` | protocol/Prodcc/ProdccManager.h:244-298 | the loop over remaining and postponed transactions computes the schedule the lemmas speak about |
| `MicroBlockScheduler.MicroBlockScheduler.PartitionIntoFixedMicroBlocks` | protocol/Prodcc/ProdccManager.h:152-175 | without prediction: consecutive slices of the given size that together are the input; none at all for size 0 |
| `MicroBlockScheduler.SliceAt` | protocol/Prodcc/ProdccManager.h:152-175 | block b holds the positions from b times the size on |
| `MicroBlockScheduler.OneSlice` | protocol/Prodcc/ProdccManager.h:152-175 | a batch no larger than a block is one block |
| `DataSummary.ClampNotNeeded` | protocol/Prodcc/L1Filter.h:106-122 | inside the domain the bucket index stays below 4096 without the clamp |
| `DataSummary.BucketMonotone` | protocol/Prodcc/L1Filter.h:98-122 | larger keys have no smaller buckets |
| `DataSummary.L1Filter.Build` | protocol/Prodcc/L1Filter.h:33-49 | a bucket is marked exactly when it has a key; without a domain that is recorded |
| `DataSummary.L1Filter.BuildDense` | protocol/Prodcc/L1Filter.h:51-67 | over a dense domain every bucket is marked |
| `DataSummary.L1Filter.Query` | protocol/Prodcc/L1Filter.h:69-95 | the scan answers whether a marked bucket lies between those of the clamped ends |
| `DataSummary.L1Filter.Monotone` | protocol/Prodcc/L1Filter.h:69-95 | a larger range never loses an answer |
| `DataSummary.L1Filter.NearKey` | protocol/Prodcc/L1Filter.h:69-130 | what the filter lets through has a key closer to it than the 4096th part of the domain, rounded up |
| `DataSummary.L1Filter.DenseExact` | protocol/Prodcc/L1Filter.h:69-95 | the dense form answers exactly whether the range meets the domain |
| `DataSummary.HashIsPosition` | protocol/Prodcc/L2Verifier.h:62-70 | the hash of x is (x + x / R) modulo R, wrap-around of the machine word included |
| `DataSummary.L2Verifier.Build` | protocol/Prodcc/L2Verifier.h:28-35 | the tree holds the hashes of the keys |
| `DataSummary.L2Verifier.Query` | protocol/Prodcc/L2Verifier.h:37-59 | both branches together answer whether a hash lies on the arc |
| `DataSummary.NeverMissesIffCovers` | protocol/Prodcc/L2Verifier.h:28-75 | the verifier misses no key of a range if, and only if, the range does not lap the circle of hashes (or laps it exactly) |
| `DataSummary.CoversComplete` | protocol/Prodcc/L2Verifier.h:37-59 | for every other range it names a key that would be missed |
| `DataSummary.ShortRangesCovered` | protocol/Prodcc/L2Verifier.h:37-75 | ranges with end - start up to R - 2 are safe; R - 1 is already too long when start is no multiple of R |
| `DataSummary.ArcMonotone` | protocol/Prodcc/L2Verifier.h:37-59 | inside a range that does not lap the circle, or ends just before its start, the range finds what any part of it finds |
| `DataSummary.PartFindsMore` | protocol/Prodcc/L2Verifier.h:37-59 | every other range has a part that finds a key which the range misses: one of its own keys, or the one just before it |
| `DataSummary.MonotoneIffSafe` | protocol/Prodcc/L2Verifier.h:37-75 | a range finds whatever hash any part of it finds if and only if d < R or d % R == R - 1 |
| `DataSummary.DataSummary.Build` | protocol/Prodcc/DataSummary.h:22-27 | both levels hold the keys |
| `DataSummary.DataSummary.BuildDense` | protocol/Prodcc/DataSummary.h:29-32 | the domain is remembered as dense |
| `DataSummary.DataSummary.QueryRangeExists` | protocol/Prodcc/DataSummary.h:34-43 | the two-level answer |
| `DataSummary.DataSummary.NeverMissesKnown` | protocol/Prodcc/DataSummary.h:5-9 | no false negative on a known key, over a dense domain always and over a sparse one for covered ranges |
| `DataSummary.DataSummary.ExistsHasKeys` | protocol/Prodcc/DataSummary.h:34-43 | over a sparse domain what exists has a key nearby, and a key whose hash is on its arc |
| `DataSummary.DataSummary.SparseMisses` | protocol/Prodcc/DataSummary.h:34-43 | over a sparse domain a range that is not covered does have false negatives |
| `DataSummary.DataSummary.DenseExact` | protocol/Prodcc/DataSummary.h:34-43 | over a dense domain the answer is whether range and domain meet |
| `DataSummary.DataSummary.Monotone` | protocol/Prodcc/DataSummary.h:34-43 | existence is monotone under inclusion, over a dense domain for every larger range and over a sparse one for the safe ranges |
| `DataSummary.DataSummary.NotMonotone` | protocol/Prodcc/DataSummary.h:34-43 | for every other range it names a key and a part that exists while the range, with that one key known, does not |
| `ConflictPredictor.ConflictPredictor.BuildSummary` | protocol/Prodcc/ConflictPredictor.h:30-37 | the summary is the dense or the sparse one, as asked for |
| `ConflictPredictor.ConflictPredictor.CheckRangeIntersection` | protocol/Prodcc/ConflictPredictor.h:74-101 | the two-iterator loop computes the walk |
| `ConflictPredictor.ConflictPredictor.WalkIsMeet` | protocol/Prodcc/ConflictPredictor.h:74-101 | on lists sorted by start, nested and overlapping ranges included, the walk finds a pair with data in its intersection exactly when there is one; over a sparse domain when every intersection of a pair is one that the verifier is monotone on |
| `ConflictPredictor.OneNarrowListIsSafe` | protocol/Prodcc/ConflictPredictor.h:74-101 | for that it is enough that no range of one of the two lists laps the circle, whatever the other list holds |
| `ConflictPredictor.ConflictPredictor.UnsafePairBreaks` | protocol/Prodcc/ConflictPredictor.h:74-101 | for every pair of ranges whose intersection is not such there is a known key and two sorted lists, safe but for this pair, on which the walk answers no although a pair meets |
| `ConflictPredictor.ConflictPredictor.NarrowIsNeeded` | protocol/Prodcc/ConflictPredictor.h:74-101 | every range that laps the circle occurs in such a pair of lists, the other range being a part of it |
| `ConflictPredictor.ConflictPredictor.PredictConflict` | protocol/Prodcc/ConflictPredictor.h:57-71 | writes against writes first, then writes against reads, then reads against writes |
| `ConflictPredictor.ConflictPredictor.PredictedIsConflict` | protocol/Prodcc/ConflictPredictor.h:57-71 | the prediction is the conflict of the ranges, WAW over RAW over WAR, under the condition of the walk |
| `ConflictPredictor.ConflictPredictor.RealConflictPredicted` | protocol/Prodcc/ConflictPredictor.h:57-71 | a real conflict on a known key is a conflict of the ranges, ranked no lower than what it is, when the intersections are ranges in which the verifier misses no key |
| `ConflictPredictor.ConflictPredictor.UncoveredPairMisses` | protocol/Prodcc/ConflictPredictor.h:57-71 | two ranges whose intersection is not such do not meet although both hold some key that is known |
| `KeyConverter.CodeInDomain` | protocol/Prodcc/KeyConverter.h:31-37 | every code lies between the least and the greatest key |
| `KeyConverter.CodesTell` | protocol/Prodcc/KeyConverter.h:44-99 | two keys share a code exactly when they are the same row: same table, same fields up to the wrap-around of order ids and line numbers and the index of the last name |
| `KeyConverter.OrdinaryCodesDiffer` | protocol/Prodcc/KeyConverter.h:44-99 | among order ids up to 100000, line numbers up to 15 and the loader's last names, padded or not, only the same row, or the same name with other padding, has the same code |
| `KeyConverter.OrderLinesAreARange` | protocol/Prodcc/KeyConverter.h:94-99 | the codes between line 1 and line n of an order are exactly those lines |
| `KeyConverter.CustomersAreARange` | protocol/Prodcc/KeyConverter.h:57-61 | the codes between customers 1 and 3000 are exactly the customers of the district |
| `KeyConverter.FirstTablesFollow` | protocol/Prodcc/KeyConverter.h:150-163 | the first code is that of warehouse 1, and districts and customers begin right after the last row of the table before |
| `KeyConverter.NamesFollowCustomers` | protocol/Prodcc/KeyConverter.h:162-170 | so do the last names and the items |
| `KeyConverter.LastTablesFollow` | protocol/Prodcc/KeyConverter.h:170-184 | and stocks, new orders, orders and order lines |
| `KeyConverter.RowsFollow` | protocol/Prodcc/KeyConverter.h:49-77 | inside a table the last field runs fastest, without a gap |
| `KeyConverter.OrdersFollow` | protocol/Prodcc/KeyConverter.h:206-220 | order ids follow one another and start over after 100000 |
| `KeyConverter.LinesFollow` | protocol/Prodcc/KeyConverter.h:94-99 | the lines of an order follow one another, start over after 15, and those of the next order come right after them |
| `KeyConverter.LastNameRoundTrip` | protocol/Prodcc/KeyConverter.h:222-259 | the greedy token match reads back each of the 1000 names the loader builds |
| `KeyConverter.ParsedIsLastName` | protocol/Prodcc/KeyConverter.h:236-258 | and nothing else is read as a name |
| `KeyConverter.NameIndexIff` | protocol/Prodcc/KeyConverter.h:222-259 | a name of the loader, with any number of blanks after it, has its own number as index, and anything else the hash of the unchanged name modulo 1000 |
| `KeyConverter.PaddedNameCode` | protocol/Prodcc/KeyConverter.h:75-80 | so its code is the start of the name table, plus 1000 for every district before, plus the number |
| `KeyConverter.NoCodeWrapsIffFits` | protocol/Prodcc/KeyConverter.h:118-184 | no code wraps around exactly when the whole layout fits into 64 bits |
| `KeyConverter.OrdinaryLayoutFits` | protocol/Prodcc/KeyConverter.h:23-29 | it does for 32-bit warehouse ids and up to 4096 districts a warehouse |
| `KeyConverter.KeyConverter.ConfigureTpcc` | protocol/Prodcc/KeyConverter.h:23-29 | each count is set to the larger of the argument and 1 |
| `KeyConverter.KeyConverter.LastNameIndexOf` | protocol/Prodcc/KeyConverter.h:222-259 | the loops over blanks and three tokens compute the index, which for a padded name of the loader is its number |
| `TpccQuery.NormalizePoints` | benchmark/tpcc/Query.h:20-38 | sorts, keeps every point, and keeps it once |
| `TpccQuery.PopulateNewOrder` | benchmark/tpcc/Query.h:69-117 | the lists are sorted and hold the ranges of a new order's rows |
| `TpccQuery.NewOrderRangesExact` | benchmark/tpcc/Transaction.h:42-272 | the write ranges of a new order hold exactly the rows its procedure writes |
| `TpccQuery.PopulatePayment` | benchmark/tpcc/Query.h:207-242 | the lists are sorted and hold the ranges of a payment, by number or by last name |
| `TpccQuery.PaymentRowsCovered` | benchmark/tpcc/Transaction.h:336-444 | whichever customer the index names, every row a payment writes is inside its write ranges |
| `TpccQuery.PopulateDelivery` | benchmark/tpcc/Query.h:329-364 | the lists are sorted and hold the ranges of the orders delivered; districts without one are skipped |
| `TpccQuery.RangeIsExact` | benchmark/tpcc/Query.h:97-106 | a range holds the codes of the rows it stands for and of no others |
| `TpccQuery.EveryRowKnown` | benchmark/tpcc/Database.h:182-183 | a summary built from the least and greatest code knows every row |
| `TpccTransaction.NewOrderProcedure` | benchmark/tpcc/Transaction.h:42-272 | the loops over the order lines, with the return at the unused item, leave these read and write sets |
| `TpccTransaction.PaymentProcedure` | benchmark/tpcc/Transaction.h:321-471 | the branches on the warehouse switch and on the last name leave these read and write sets |
| `TpccTransaction.DeliveryProcedure` | benchmark/tpcc/Transaction.h:514-630 | the three rounds of reads and the round of writes over the districts leave these read and write sets |
| `TpccRows.NewOrderReadsAre` | benchmark/tpcc/Transaction.h:55-117 | a new order reads its warehouse, district and customer, the item and the stock of every line up to the first unused item, and nothing else |
| `TpccRows.NewOrderWritesAre` | benchmark/tpcc/Transaction.h:117-272 | it writes its district, itself, its lines and their stocks, or rolls back and writes nothing when some item is unused |
| `TpccRows.PaymentRowsAre` | benchmark/tpcc/Transaction.h:336-444 | a payment reads and writes its warehouse if the switch says so, its district and its customer, and by last name also reads the index |
| `TpccRows.DeliveryRowsAre` | benchmark/tpcc/Transaction.h:514-630 | a delivery reads, and writes, in every district with an undelivered order the order, its lines and its customer, and nothing else |
| `TpccTransaction.NewOrderReadsCovered` | benchmark/tpcc/Transaction.h:55-117 | all a new order reads (warehouse, district, customer, the items and stocks up to an unused item) is declared, and it is all that is declared when every item is used |
| `TpccTransaction.NewOrderWritesCovered` | benchmark/tpcc/Transaction.h:99-272 | all it writes is declared, and it is all that is declared when every item is used; otherwise the district is declared and not written |
| `TpccTransaction.PaymentReadsCovered` | benchmark/tpcc/Transaction.h:336-377 | declared for reading are exactly the rows that a payment reads for some customer the name index may name, the index entry included |
| `TpccTransaction.PaymentWritesCovered` | benchmark/tpcc/Transaction.h:383-444 | and for writing exactly those it writes for some such customer |
| `TpccTransaction.DeliveryRowsExact` | benchmark/tpcc/Transaction.h:514-631 | a delivery reads, and writes, exactly the rows it declares |
| `TpccTransaction.QueryCovered` | benchmark/tpcc/Query.h:69-364 | none of the three procedures accesses a row that its query has not declared |
| `TpccTransaction.DeclaredExactlyIff` | benchmark/tpcc/Query.h:69-364 | and every declared row is accessed if and only if the order does not roll back and the payment is by number |
| `TpccTransaction.OnlyItemsIndexed` | benchmark/tpcc/Transaction.h:107-108 | only items are read through the local index |
| `TpccTransaction.NoItemWritten` | benchmark/tpcc/Transaction.h:130-269 | and no procedure writes an item |
| `TpccPrediction.DeclaredIsFaithful` | protocol/Prodcc/ProdccManager.h:120-132 | a transaction whose accesses are declared meets the premise of the no-abort theorem |
| `TpccPrediction.QueryIsFaithful` | benchmark/tpcc/Transaction.h:42-630 | each of the three procedures meets it with the ranges its query declares |
| `TpccPrediction.BatchIsFaithful` | protocol/Prodcc/ProdccManager.h:120-132 | so does any batch of them |
| `TpccPrediction.RunTpccEpoch` | protocol/Prodcc/ProdccManager.h:396-439 | an epoch of any new orders, payments and deliveries with the prediction on, the workers one after another: no validation abort, and the table of running one by one, each once, all of them but the orders that roll back |
| `TpccPrediction.PlanTpccEpoch` | protocol/Prodcc/ProdccManager.h:396-417 | the schedule of such an epoch holds each transaction once, and no two of a block have a conflict the validation looks for |
| `TpccPrediction.InterleavedTpccEpoch` | protocol/Prodcc/ProdccManager.h:420-437 | run by concurrent workers in any interleaving, such a schedule ends likewise: no validation abort, and the table of running each once, but for the orders that roll back |
| `MvccHashMap.PrevIsGreatest` | common/MVCCHashMap.h:170-188 | on a descending list the first match is the greatest version below the bound |
| `MvccHashMap.AtFinds` | common/MVCCHashMap.h:151-169 | versions are unique, so an exact lookup finds the one value there is |
| `MvccHashMap.AboveRemovesExactly` | common/MVCCHashMap.h:224-249 | the backward erase removes exactly the versions up to the bound |
| `MvccHashMap.VacuumedReads` | common/MVCCHashMap.h:224-249 | a vacuum changes what a reader finds exactly when it found one of these versions |
| `MvccHashMap.KeepLatestReads` | common/MVCCHashMap.h:251-275 | keeping the latest version keeps what every reader past it finds, and nobody else's |
| `MvccHashMap.NewHeadReads` | common/MVCCHashMap.h:109-134 | a new head is found by the readers past it, all others find what they found |
| `MvccHashMap.ReplacedReads` | core/Table.h:304-314 | writing a version's value changes what is found at that version only |
| `MvccHashMap.MVCCHashMap.ContainsKey` | common/MVCCHashMap.h:36-50 | whether the key has a version; an empty list is none |
| `MvccHashMap.MVCCHashMap.ContainsKeyVersion` | common/MVCCHashMap.h:53-71 | the loop tells whether the key has that version |
| `MvccHashMap.MVCCHashMap.RemoveKey` | common/MVCCHashMap.h:74-86 | the whole list goes, the other keys keep theirs |
| `MvccHashMap.MVCCHashMap.RemoveKeyVersion` | common/MVCCHashMap.h:88-107 | removes that version and keeps the list descending |
| `MvccHashMap.MVCCHashMap.InsertKeyVersionHolder` | common/MVCCHashMap.h:109-134 | a larger version becomes the head; the list stays descending |
| `MvccHashMap.MVCCHashMap.SetKeyVersion` | common/MVCCHashMap.h:151-169 | writing through the reference a lookup returned |
| `MvccHashMap.MVCCHashMap.VersionCount` | common/MVCCHashMap.h:137-149 | the length of the list, 0 for a key without one |
| `MvccHashMap.MVCCHashMap.GetKeyVersion` | common/MVCCHashMap.h:151-169 | the loop finds that version |
| `MvccHashMap.MVCCHashMap.GetKeyVersionPrev` | common/MVCCHashMap.h:170-212 | the loop finds the first version below the bound |
| `MvccHashMap.MVCCHashMap.VacuumKeyVersions` | common/MVCCHashMap.h:224-249 | the loop from the back leaves the part above the bound and counts what it removed |
| `MvccHashMap.MVCCHashMap.VacuumKeyKeepLatest` | common/MVCCHashMap.h:251-275 | leaves the head and counts what it removed |
| `MvccTable.MVCCTable.Insert` | core/Table.h:293-302 | a new newest version whose word is its number |
| `MvccTable.MVCCTable.Update` | core/Table.h:304-314 | the version gets its value and the word 0 |
| `MvccTable.MVCCTable.SearchPrev` | core/Table.h:263-272 | the first version below the bound, none if there is none |
| `MvccTable.MVCCTable.SearchLatest` | core/Table.h:225-242 | without a bound the head, with one the greatest version up to it |
| `MvccTable.MVCCTable.GarbageCollect` | core/Table.h:316-320 | keeps the head |
| `MvccTable.TidOrder` | protocol/Bohm/BohmHelper.h:68-72 | ids are ordered by epoch, then position |
| `MvccTable.TidRoundTrip` | protocol/Bohm/BohmHelper.h:49-85 | the epoch is read back; the position only while it is below 2^24, the width of its mask |
| `PlannedBatch.SerialKey` | protocol/Bohm/Bohm.h:36-58 | in the serial run a transaction leaves its outputs on its own keys and nothing on others |
| `PlannedBatch.SerialBetween` | protocol/Bohm/BohmExecutor.h:242-250 | between two writers a key keeps its value |
| `Bohm.ReaderFinds` | protocol/Bohm/BohmExecutor.h:239-249 | with all placeholders in, a reader finds the row of the last writer before it, whatever has been written so far |
| `Bohm.StepKeepsInv` | protocol/Bohm/BohmExecutor.h:303-353 | any read, retry or write of any worker keeps every version list in the shape the serial run prescribes |
| `Bohm.EveryReadIsSerial` | protocol/Bohm/BohmExecutor.h:239-262 | whenever a read finds its row ready it finds the value the serial run reads |
| `Bohm.BatchIsSerial` | protocol/Bohm/BohmExecutor.h:225-353 | at the end, under every interleaving, the newest versions are the result of running the batch in id order |
| `BohmWordFirst.StepOnTimeKeepsInv` | core/Table.h:304-314 | with the word set to ready before the value is copied, any step that is not a read between the two stores keeps the rows those of single-step writes but for the rows being written |
| `BohmWordFirst.OnTimeIsSerial` | core/Table.h:304-314 | a run in which no reader comes between the two stores ends as the batch run in id order |
| `BohmWordFirst.ReaderComesEarly` | core/Table.h:304-314 | a reader whose key was last written by an earlier transaction of another worker can come between the two stores of that write and take the placeholder's value, if no earlier transaction of its own worker has such a read |
| `BohmWordFirst.EarlyCrosses` | protocol/Bohm/BohmExecutor.h:225-353 | nobody else ever comes early: whoever does reads what another worker was the last to write |
| `BohmWordFirst.OnTimeIff` | protocol/Bohm/BohmExecutor.h:225-353 | with a given number of workers no reader can come early if and only if no transaction reads a key whose last earlier writer belongs to another worker |
| `BohmWordFirst.AlwaysOnTimeIff` | core/Table.h:304-314 | no reader can come early, with any number of workers, if and only if no transaction of the batch reads a key that an earlier one writes |
| `BohmWordFirst.CopyReadsPlaceholder` | protocol/Bohm/Bohm.h:36-58 | a batch of two and a run of it in which the second reads the placeholder's value in place of the 5 that the first writes |
| `Bohm.LowestMovesOn` | protocol/Bohm/BohmExecutor.h:310-335 | the unfinished transaction with the lowest id always has a step, and each of its steps brings it nearer to its end |
| `Bohm.NextBatchMayStart` | protocol/Bohm/BohmExecutor.h:355-370 | after the garbage collection all versions are ready and old, the newest values unchanged: the next batch may start |
| `Bohm.OnlyNewestLeft` | protocol/Bohm/BohmExecutor.h:355-370 | a key the batch writes is left with one version, the newest; all others keep theirs |
| `Bohm.BohmExecutor.InsertWriteSets` | protocol/Bohm/BohmExecutor.h:278-301 | a worker inserts the placeholders of its own partitions for the whole batch, in order |
| `Bohm.BohmExecutor.RunInsertPhase` | protocol/Bohm/BohmExecutor.h:278-301 | all workers together give every key its placeholders |
| `Bohm.BohmExecutor.GarbageCollect` | protocol/Bohm/BohmExecutor.h:355-370 | a worker keeps the latest version of the keys its transactions write |
| `Bohm.BohmExecutor.RunGarbagePhase` | protocol/Bohm/BohmExecutor.h:355-370 | all workers together do so for every key written |
| `Docc.ValidationIsExact` | protocol/DOCC/DOCCExecutor.h:242-264 | version equality fails when, and only when, a committed transaction wrote what was read |
| `Docc.ValidReadsAreCurrent` | protocol/DOCC/DOCCExecutor.h:242-264 | what passes the validation was read as it is now |
| `Docc.FirstReadyCommits` | protocol/DOCC/DOCCExecutor.h:266-328 | the first transaction that is not marked always commits |
| `Docc.CommitsIff` | protocol/DOCC/DOCCExecutor.h:266-328 | with retry everybody ready on the snapshot commits, without it exactly those who read nothing that a committed transaction before them writes |
| `Docc.CommitExecutes` | protocol/DOCC/DOCC.h:29-51 | on the newest values a commit with its garbage collection is the execution of the transaction |
| `Docc.DOCCExecutor.ExecuteOneTransaction` | protocol/DOCC/DOCCExecutor.h:200-215 | the reads take the newest values and remember their versions |
| `Docc.DOCCExecutor.RunExecutePhase` | protocol/DOCC/DOCCExecutor.h:217-240 | every transaction runs on the one snapshot |
| `Docc.DOCCExecutor.Validate` | protocol/DOCC/DOCCExecutor.h:242-264 | the loop compares every version outside the indexes with the newest |
| `Docc.DOCCExecutor.Commit` | protocol/DOCC/DOCC.h:29-51 | every key of the write set gets a new head, ready |
| `Docc.DOCCExecutor.Settle` | protocol/DOCC/DOCCExecutor.h:277-304 | without retry a stale transaction is dropped; with retry its second run is on the newest values, the program stops if that run is not ready, and it passes otherwise, so the limit of 1000 is never reached |
| `Docc.DOCCExecutor.ValidateAndCommitTransactions` | protocol/DOCC/DOCCExecutor.h:266-328 | the table is that of running the committed transactions in index order, and these are exactly the ones the validation rule names; the phase stops exactly at the first transaction that was ready on the snapshot, lost its validation, and is not ready on the table its predecessors left |
| `TwoPLHelper.EncodeDecode` | protocol/TwoPL/TwoPLHelper.h:28-45 | write bit, read count and tid read back what was put in |
| `TwoPLHelper.DecodeEncode` | protocol/TwoPL/TwoPLHelper.h:119-139 | a word is its three fields |
| `TwoPLHelper.SwapOnFields` | protocol/TwoPL/TwoPLHelper.h:47-117 | what each lock and release does to the fields: no carry into the write bit, no borrow |
| `TwoPLHelper.StepKeepsInv` | protocol/TwoPL/TwoPLHelper.h:47-117 | any load or swap of any client keeps the count |
| `TwoPLHelper.LocksExclude` | protocol/TwoPL/TwoPLHelper.h:47-117 | in every run the read count is the number of read holders, and the write bit is set exactly when there is one writer, then without readers |
| `TwoPLHelper.RefusedIff` | protocol/TwoPL/TwoPLHelper.h:47-117 | in every reachable state a reader is refused if and only if somebody holds the write lock or 511 hold read locks, a writer if and only if somebody holds any lock, and nobody is kept from releasing |
| `TwoPLHelper.ReadersShare` | protocol/TwoPL/TwoPLHelper.h:47-62 | for every number up to 511 there is a run in which that many clients hold read locks at the same time |
| `TwoPLHelper.TidChangesOnRelease` | protocol/TwoPL/TwoPLHelper.h:98-117 | only a release with a commit tid changes the low 54 bits, to that tid |
| `TwoPLHelper.WriteReleaseNeverFails` | protocol/TwoPL/TwoPLHelper.h:98-117 | nobody changes the word of a writer, so the single swap of its release finds the word it has loaded |
| `TwoPL.TidGenerator.GenerateTid` | protocol/TwoPL/TwoPL.h:43-69 | one more than the maximum of the tids read and the worker's last one |
| `TwoPL.ReadIsCurrent` | protocol/TwoPL/TwoPLExecutor.h:59-75 | what is read under a lock is what the serial run has there |
| `TwoPL.StepKeepsInv` | protocol/TwoPL/TwoPL.h:71-246 | every lock, refusal, read, decision, write and release of any worker keeps the invariant |
| `TwoPL.CommitsReadSerially` | protocol/TwoPL/TwoPL.h:112-132 | a transaction that decides to commit has read exactly what the serial run in commit order reads |
| `TwoPL.TableIsSerial` | protocol/TwoPL/TwoPL.h:112-246 | whenever no commit is under way the table is that of the committed transactions run in commit order |
| `TwoPL.LockedIsCurrent` | protocol/TwoPL/TwoPLTransaction.h:127-172 | the values a running transaction holds under lock are still those of the table |
| `TwoPL.NobodyWaits` | protocol/TwoPL/TwoPLTransaction.h:127-172 | every unfinished transaction can always go on by itself |
| `TwoPLProgress.UndisturbedCommits` | protocol/TwoPL/TwoPLTransaction.h:127-172 | wherever a run has come, a ready transaction that has not begun can commit at once if nobody holds for writing what it reads, nor any lock on what it writes, and it locks no key twice that it writes |
| `TwoPLProgress.NeverTwice` | protocol/TwoPL/TwoPLTransaction.h:127-172 | a transaction that does lock one twice never gets to commit |
| `TwoPLProgress.CommittableIff` | protocol/TwoPL/TwoPLTransaction.h:127-172 | a transaction can be the first to commit if and only if it locks no key twice that it writes and its procedure ends ready on the initial table |
| `TwoPL.TidsGrow` | protocol/TwoPL/TwoPL.h:223-243 | tids never fall, and a released write makes its record's tid larger |
| `Calvin.WritersSplit` | protocol/Calvin/CalvinExecutor.h:256-287 | earlier writers of a key that is locked have written it, later ones have not |
| `Calvin.ReadsSerial` | protocol/Calvin/CalvinExecutor.h:340-361 | a transaction reads what it reads when the batch runs in order |
| `Calvin.StepKeepsInv` | protocol/Calvin/CalvinExecutor.h:244-338 | any step of the lock manager or a worker keeps locks, values and queues in order |
| `Calvin.NothingLost` | protocol/Calvin/CalvinExecutor.h:306-314 | when all workers have left their loops every transaction has been run |
| `Calvin.TakenOnce` | protocol/Calvin/CalvinExecutor.h:288-318 | no transaction is taken from a queue twice |
| `CalvinDispatch.DealtInTurn` | protocol/Calvin/CalvinExecutor.h:389-400 | in every run the n-th transaction that takes a lock goes to worker n modulo the number of workers, and queues hold ascending positions of the batch |
| `CalvinDispatch.WorkerAscends` | protocol/Calvin/CalvinExecutor.h:306-318 | a worker never goes back to an earlier transaction |
| `Calvin.BatchIsSerial` | protocol/Calvin/CalvinExecutor.h:244-338 | any interleaving ends in the table of running the batch in index order |
| `CalvinProgress.NeverStuck` | protocol/Calvin/CalvinExecutor.h:244-338 | until all workers have left there is always a step that is not turning in vain, if no transaction to run locks a key it writes twice or any key more than 511 times |
| `CalvinProgress.StepsLeaveLess` | protocol/Calvin/CalvinExecutor.h:244-338 | every such step leaves less work to do |
| `CalvinProgress.EveryRunCanFinish` | protocol/Calvin/CalvinExecutor.h:244-338 | so every run, however far it has come, can be brought to its end |
| `CalvinProgress.RunNeverPasses` | protocol/Calvin/CalvinHelper.h:99-123 | in no run does the lock manager get past the last of too many locks of one transaction on one key |
| `CalvinProgress.NeverFinishes` | protocol/Calvin/CalvinExecutor.h:244-338 | and with such a transaction in the batch no run comes to its end |
| `CalvinProgress.FinishesIffLockable` | protocol/Calvin/CalvinHelper.h:99-123 | some run comes to its end if and only if no transaction to run locks a key it writes twice or any key more than 511 times |
| `CalvinProgress.TwiceLocked` | protocol/Calvin/CalvinHelper.h:99-123 | two batches of one transaction that locks key 7 twice: to write it, and no run ends; only to read it, and some run does |
| `PhaseBarrier.WorkerStepKeepsLocal` | protocol/Prodcc/ProdccExecutor.h:343-370 | a worker's steps keep the counters equal to the workers that have got that far |
| `PhaseBarrier.LocalStepKeepsLocal` | protocol/Prodcc/ProdccManager.h:302-335 | so do its manager's |
| `PhaseBarrier.AllStopsTaken` | core/Manager.h:145-163 | taking n - 1 STOPs means having everybody's |
| `PhaseBarrier.StepKeepsInv` | protocol/Prodcc/ProdccManager.h:302-335 | every step of every worker and manager keeps the global invariant |
| `PhaseBarrier.BarrierHolds` | protocol/Prodcc/ProdccManager.h:302-335 | a worker is in the body of a phase only when every worker of every node is done with the phase before |
| `PhaseBarrier.BodiesTogether` | protocol/Prodcc/ProdccManager.h:302-335 | two workers in a body at the same time are in the same phase |
| `PhaseBarrier.MessagesNeverMix` | core/Manager.h:121-188 | every SIGNAL, STOP and ACK that is waited for belongs to the phase of whoever waits |
| `PhaseBarrier.NeverStuck` | protocol/Prodcc/ProdccManager.h:302-335 | in every reachable state some worker or manager can go on |
| `AlignedBarrier.KnownIsKind` | protocol/Prodcc/ProdccManager.h:392-506 | however far a node has come, what it works out phase p to be from the sizes it agreed on is what all the others do |
| `AlignedBarrier.OwnStepIsStep` | protocol/Prodcc/ProdccManager.h:302-335 | a step on the status words that a node has worked out itself is one with a single sequence of phases for all |
| `AlignedBarrier.JointStepKeepsInv` | protocol/Prodcc/ProdccManager.h:302-384 | every step of the barrier or of the exchange, in any order, keeps the invariants of both |
| `AlignedBarrier.BodiesDoTheSame` | protocol/Prodcc/ProdccManager.h:302-384 | in every run of both, two workers of any nodes in a body at the same time are in the same phase, and their nodes have worked out the same kind of work for it |
| `ScheduleAlignment.LargestOfSame` | protocol/Prodcc/ProdccManager.h:357-378 | the order in which the sizes arrive does not matter |
| `ScheduleAlignment.AlignScheduleSize` | protocol/Prodcc/ProdccManager.h:357-378 | node 0 computes the largest of all sizes |
| `ScheduleAlignment.AlignAll` | protocol/Prodcc/ProdccManager.h:357-384 | all nodes run as many micro-blocks as the longest schedule has; the added ones are empty |
| `VectorExchange.AllHeard` | protocol/Prodcc/ProdccManager.h:357-369 | when node 0 has taken as many sizes as there are followers, they are those of all followers in this epoch, and it has the largest of all |
| `VectorExchange.StepKeepsInv` | protocol/Prodcc/ProdccManager.h:337-378 | every send, receipt and announcement, in any order and over any number of epochs, keeps that |
| `VectorExchange.AlignedToLargest` | protocol/Prodcc/ProdccManager.h:357-378 | so for every epoch behind it every node has the largest size that any node had in that epoch |
| `VectorExchange.SamePhases` | protocol/Prodcc/ProdccManager.h:392-506 | and all nodes run the same sequence of phases |
| `VectorExchange.NeverStuck` | protocol/Prodcc/ProdccManager.h:357-378 | somebody can always send, take, announce or hear |

## Left out

- Sockets, dispatchers, message encoding, delays, logging, metrics: input and output without bearing on the results.
- Several nodes: only the barrier and the schedule alignment have them; elsewhere every partition is on the one node, as remote requests complete inside their phase.
- TPC-C's and YCSB's values: a transaction is a function of what it reads. The procedure runs twice on the same values; the second run changes neither set.
- What TPC-C's queries look up before they run: the next order id, the oldest new orders and the customer of a last name are parameters, in the ranges the loader gives them.
- YCSB's ranges: points only, with its keys as their own codes.
- The random numbers of the toxic-query knob and the heuristics that switch the prediction off: arbitrary inputs of an epoch.
- Calvin with several lock managers, AriaFB's fallback to locking, and PWV's statements.
- The `same_batch` option of Bohm and Calvin, which runs one batch again.
- Memory order: single loads and stores take effect one after another, as with the sequentially consistent atomics the source uses for its words. A Bohm read looks at the word and copies the value in one step.
- Spurious failures of weak compare-and-swap: in the loops they are steps without effect. `protocol/TwoPL/TwoPLHelper.h:115` has no loop around it; a spurious failure there would leave the row locked, and is taken not to happen.
- Blind writes under locking: two-phase locking and Calvin assume that the keys locked for writing are the keys written; a key locked for writing and not written would never be released by a commit.
- The limit of 511 readers in two-phase locking's state machine: a lock may be refused at any time there, as when a swap has lost its race, so the limit only removes behaviour. When the word itself refuses is `TwoPLHelper.RefusedIff`.
- TwoPL.TableIsSerial: speaks of the moments without a commit under way; in between, the table lacks exactly the writes still pending.
- ProdccManager.ProdccManager.RunMicroBlock: runs the shares of the workers in a phase one after another; `MicroBlockInterleaving` and `MicroBlockProgress` have the interleavings.
- ProdccManager.ProdccManager.RunMacroBatch: likewise; `InterleavedEpochs` has the interleavings.
- ProdccManager.ProdccManager.RunEpoch: likewise.
- ProdccManager.ProdccManager.Run: likewise; and it assumes the snapshot-isolation switch off, ids below 2^20 and epochs below 2^24, the widths of the reservation word.
- TpccPrediction.RunTpccEpoch: likewise; `TpccPrediction.PlanTpccEpoch` and `InterleavedTpccEpoch` have the interleavings.
- DataSummary.DataSummary.Monotone: over a sparse domain it holds of the safe ranges only, as `DataSummary.MonotoneIffSafe` and `NotMonotone` show.
- ConflictPredictor.ConflictPredictor.WalkIsMeet: over a sparse domain it needs safe intersections, as `UnsafePairBreaks` shows.
- ConflictPredictor.ConflictPredictor.PredictedIsConflict: likewise.
- ConflictPredictor.ConflictPredictor.RealConflictPredicted: over a sparse domain it needs intersections in which no key is missed, as `UncoveredPairMisses` shows.
- DataSummary.L1Filter.Build: debug builds stop when keys are given without a domain; the model has the release build, which marks buckets that no query looks at.
- ScheduleAlignment.AlignAll: the arrival of exactly this epoch's sizes is a precondition there; `VectorExchange` derives it.
- ProdccManager.ProdccManager.BuildTxnsToSchedule: leaves the sort by id out, because ids grow along the array.
- MicroBlockScheduler.MicroBlockScheduler.PartitionTask: appends a row's edges at once instead of collecting them in a map of the worker first; rows of different workers are different.
- Bohm.BatchIsSerial: takes the two stores of a write for one, as `BohmWordFirst` does not, and takes a transaction that runs to end ready once its reads are there, and every key read to have a version; the source stops or dereferences a null pointer otherwise.
- SQL emulation, benchmark loaders, coordinator start-up, scripts.
