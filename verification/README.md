# Multi-version deterministic concurrency control: a verified model

A Dafny model of the three protocols of the repository, Cheetah, Serval and Caracal, with their
supporting layers, and proofs of what they promise: that a batch of transactions, executed by many
workers in any interleaving, leaves every read with the answer of the serial execution, that no
version is freed while it is needed, or twice, and that no step gets stuck.

## How it is built

* **Words and bitmaps.** `Bits` writes the 64-bit primitives with the source's shifts and masks on
  words that are numbered from the left; `TwoLevelBitmap` is Cheetah's compressed structure and
  `SortedSlots` the sorted vectors of Caracal and Serval.
* **Rows as transition systems.** `CheetahRow`, `CaracalRow` and `ServalRow` model one row with a
  program counter for every appender, reader, writer and flusher. Every load, store,
  compare-and-swap, fetch-and-add, acquire and release is a step; statements under a lock, or on data
  of one thread, are taken together. A flag records a failed assertion of the source or the use of a
  deleted version. All atomics of the source are sequentially consistent, so interleaving is the
  memory model. A retry loop around a failing `try_lock` is a step that goes back, or, where the loop
  does nothing else, a step that is not enabled. Each protocol has an invariant (`CheetahInvariant`,
  `CaracalInvariant`, `ServalInvariant`) and a lemma that every step keeps it.
* **Whole runs.** `CheetahSystem` puts rows, workers in program order, phases and epochs together;
  `CheetahEquivalence` and `CheetahProgress` prove the equivalence to the serial execution of
  `Workload`, deadlock freedom, termination, and quiescence with conservation of versions. Rows of
  Caracal and Serval share no data, so `CaracalEquivalence` and `ServalEquivalence` follow one
  arbitrary row through all epochs; the order in which workers go from row to row only removes
  interleavings, so what holds in every run of the row holds in every run of the system.
  `CaracalProgress` and `ServalProgress` show that the row never gets stuck. `Barrier` proves that the
  rendezvous barrier separates the phases, which the systems take as one step.
* **Routes.** `CaracalRoutes` and `ServalRoutes` say which way an append or a flush goes on a reachable
  row when nobody comes in between - array, buffer or region, in how many steps, and with what result -
  and, over whole runs, that buffers and regions appear because of contention and only because of it.
  `ServalContention` is a run in which a region does appear. `WorkerOrder` ties every wait on the same
  worker to the visits of the executables' loops (`Assignment`).
* **Objects.** `CheetahObjects`, `CheetahWorker`, `CaracalObjects`, `ServalObjects`, `Assignment` and
  the class in `Barrier` have the source's mutable objects and loops, each method proved equal to the
  functions that the transition systems step with.

Epoch `e` of a workload is the source's epoch `e + 1`. Transactions of an epoch are numbered from 0 to
4095; an operation reads or blindly writes one key, and the keys of a transaction differ, as the
constructors of OperationSet ensure.

## Where the code does not do what one might expect

* Serval's `read` returns `master_` for a row that was not written in the reader's epoch, and
  `master_` advances only with the row's next write. `ServalStaleRead` shows a run in which the read
  misses the previous epoch's write; `ServalEquivalence.ReadIsSerialIff` says exactly when a read is serial.
* The assertion at `protocols/serval/include/row_region.hpp:209` rejects the 64th version of a core, which
  the assertion at line 200 admits. The transition system follows line 200;
  `ServalData.SizeAssertionFailsForFullCore` says exactly when line 209 fails.
* `NUM_TXS_IN_ONE_EPOCH` is a build option, but initialization and execution cover the same
  transactions only for its default of 4096 (`Assignment.SameTransactionsIff`).
* `pop_latest` leaves the popped transaction's bit set, so that a core's array has as many versions as
  set bits only while its core bit is set.
* Packed ids of Caracal lose their order when the epoch number outgrows 32 bits
  (`CaracalInvariant.PackOrderIsLostAtWrap`), hence the bound on the number of epochs there.

## Model

| member | source | states |
|---|---|---|
| Bits.SetBitIsUpdate | utils/bitmap.hpp:20-24 | setting a bit adds exactly that position to the set of positions and changes no other |
| Bits.IsBitSetIsIndex | utils/bitmap.hpp:16-18 | the mask test is true exactly for the positions in the word |
| Bits.MaskUntil | utils/bitmap.hpp:47-62 | masking with the inclusive left fill keeps the prefix up to and including the position |
| Bits.MaskBefore | utils/bitmap.hpp:26-45 | masking with the exclusive left fill keeps the prefix before the position, also for position 0 |
| Bits.LargestIsMax | utils/bitmap.hpp:70-75 | for a word that is not zero the result is the greatest set position, and in range |
| Bits.SearchesFindTheMaximum | utils/bitmap.hpp:77-116 | both bounded searches return the true maximum at or below (strictly below) the position, and -1 exactly when there is none |
| Bits.TwoLargestAreTheMaxima | utils/bitmap.hpp:88-106 | the pair is the maximum at or below the position and the maximum strictly below that one, each -1 when it does not exist |
| Bits.MaskedCountIsRank | protocols/cheetah/include/rw_bitmaps.hpp:185-195 | the masked population count is the number of set positions strictly to the left |
| TwoLevelBitmap.UpdateRefinesMapUpdate | protocols/cheetah/include/rw_bitmaps.hpp:40-46 | inserting a core, in whatever order cores come, updates the represented map from core to transaction bitmap at that core and nowhere else |
| TwoLevelBitmap.RepresentationIsCanonical | protocols/cheetah/include/rw_bitmaps.hpp:231-236 | two structures that represent the same map are equal, so the order of the insertions cannot be told |
| TwoLevelBitmap.IdentifyVisibleIsMaxBelow | protocols/cheetah/include/rw_bitmaps.hpp:239-272 | the lookup returns the greatest registered serial id below the reader's, and "not found" exactly when there is none |
| TwoLevelBitmap.IsFinalStateIsGreatest | protocols/cheetah/include/rw_bitmaps.hpp:214-225 | true exactly for the greatest registered serial id |
| TwoLevelBitmap.SerialOrder | protocols/cheetah/include/rw_bitmaps.hpp:207-207 | serial ids are ordered first by core and then by transaction |
| CheetahRowTheorems.StepKeepsInv | protocols/cheetah/include/rw_bitmaps.hpp:40-205 | whoever takes the next atomic step of a row in any phase, the row's invariant holds afterwards |
| CheetahRowTheorems.LockIsExclusive | protocols/common/readwritelock.hpp:41-49 | in every reachable state the counter is -1 while an actor is inside the lock, and no second actor is inside |
| CheetahRowTheorems.CounterAfterReadPhase | protocols/cheetah/include/rw_bitmaps.hpp:51-55 | after any interleaving of the split increments the counter is the number of readers plus one, or 0 without readers |
| CheetahRowTheorems.FinalReaderIsUnique | protocols/cheetah/include/rw_bitmaps.hpp:90-121 | at most one reader is ever the final one, and then no other reader is counted any more |
| CheetahRowTheorems.EliminationIsExact | protocols/cheetah/include/rw_bitmaps.hpp:132-182 | a write ends without a version exactly if it is not the final state and no reader of the epoch resolves to it |
| CheetahRowTheorems.HeldVersionsAreLive | protocols/cheetah/include/rw_bitmaps.hpp:90-121 | a version that a reader holds has not been deleted, and it is not STABLE exactly while its writer has not finished |
| CheetahRowTheorems.ReadsExpected | protocols/cheetah/include/cheetah.hpp:133-138 | a read returns the content of the largest smaller writer of the epoch, or the row's content when the epoch began |
| CheetahRowTheorems.NoFault | protocols/cheetah/include/rw_bitmaps.hpp:198-205 | no assertion of the source fails and no deleted version is touched: only STABLE versions are freed, none twice |
| CheetahRowTheorems.Quiescence | protocols/cheetah/include/rw_bitmaps.hpp:24-37 | when everybody is done the counter is 0, bitmaps and placeholders are empty, nothing is stashed, the STABLE master holding the final state is the only live version, and Create equals Delete |
| CheetahRowTheorems.WaitsOnlyFor | protocols/cheetah/include/cheetah.hpp:185-193 | an actor waits for the row's lock when it takes it, and a reader of the execution phase for the writer it resolves to, and for nothing else |
| CheetahRowTheorems.AdvanceKeepsInv | executables/ycsb_cheetah.cpp:135-163 | the barriers keep the invariant, and an epoch begins with the final state of the one before |
| CheetahSystemProofs.WorkIsFaithful | executables/ycsb_cheetah.cpp:31-48 | the bitmaps that the cores collect for a key represent exactly the serial ids that write it, and the readers are exactly those that read it |
| Workload.StoreIsVisible | protocols/cheetah/include/cheetah.hpp:133-159 | the state of the serial execution before transaction s holds, for every key, the largest smaller write of the epoch, or what the epoch began with |
| Workload.SerialReadIsStore | protocols/cheetah/include/operation_set.hpp:89-96 | with distinct keys in a transaction an operation reads the state before its transaction |
| CheetahEquivalence.MoveKeepsInv | executables/ycsb_cheetah.cpp:29-96 | every step of every worker, in program order, and every barrier keep the invariant of the whole system |
| CheetahEquivalence.SerialEquivalence | executables/ycsb_cheetah.cpp:134-163 | for every workload and every schedule: every read that has returned, in any epoch, returned what the serial execution returns; nothing faults |
| CheetahProgress.Progress | executables/ycsb_cheetah.cpp:74-96 | deadlock freedom: in every reachable state before the last barrier some worker or the barrier can move |
| CheetahProgress.RunsAreFinite | executables/ycsb_cheetah.cpp:134-163 | every schedule is bounded by a measure on the remaining steps that each move decreases |
| CheetahProgress.CanComplete | executables/ycsb_cheetah.cpp:134-163 | from every reachable state some schedule finishes all epochs |
| CheetahProgress.EpochBoundary | protocols/cheetah/include/rw_bitmaps.hpp:198-205 | at every epoch boundary each row is at rest with the serial state as its only version, and over all rows total Create equals total Delete |
| CheetahProgress.CompleteRun | executables/ycsb_cheetah.cpp:134-163 | a completed run has logged every read of the workload with its serial result, and the masters hold the final serial state |
| CheetahObjects.RWLock.TryLock | protocols/common/readwritelock.hpp:59-66 | takes the lock exactly if the counter was 0, and otherwise leaves it alone |
| CheetahObjects.WriteBitmap.UpdateBitmap | protocols/cheetah/include/rw_bitmaps.hpp:40-46 | the new state is the map update and the transition system's step |
| CheetahObjects.WriteBitmap.AppendPendingVersion | protocols/cheetah/include/rw_bitmaps.hpp:51-87 | the counter goes from 0 to 2 and otherwise up by one; the version is the placeholder of the greatest smaller write, created PENDING if nobody has asked for it yet, or the master; nothing else changes, as in the transition system's uninterrupted steps |
| CheetahObjects.WriteBitmap.GcPlaceholders | protocols/cheetah/include/rw_bitmaps.hpp:105-112 | the loop frees every placeholder once, each still live and STABLE, and clears the map |
| CheetahObjects.WriteBitmap.DecrementRefCnt | protocols/cheetah/include/rw_bitmaps.hpp:90-121 | the counter goes from 2 to 0 and otherwise down by one; exactly in the first case the stashed master and all placeholders are freed and nothing else, as in the uninterrupted steps |
| CheetahObjects.WriteBitmap.IdentifyWriteVersion | protocols/cheetah/include/rw_bitmaps.hpp:124-183 | the epoch's greatest write installs its version as master and clears the bitmaps, the old master being freed or, with readers, stashed; any other write leaves the row alone and gets a version only if it was asked for |
| CheetahObjects.WriteBitmap.Store | protocols/cheetah/include/cheetah.hpp:144-159 | the version then holds the writer's record and is STABLE, as after the transition system's two stores |
| CheetahWorker.Worker.CollectWriteBitmaps | executables/ycsb_cheetah.cpp:31-46 | the loops collect, for each key that the core's transactions write and for no other, exactly the bitmap the row's transition system is given |
| CheetahWorker.Worker.FinalizeUpdateWriteBitmaps | protocols/cheetah/include/cheetah.hpp:88-102 | whatever the order in which locks become free, every collected row is updated once at this core and no other row changes |
| Barrier.SafeIffTypesDiffer | protocols/ycsb_common/rendezvous_barrier.hpp:25-50 | for any number of children: no thread enters a phase before all have finished the previous one, in any run, if and only if consecutive barrier types differ; then no child misses a release |
| Barrier.StepKeepsInv | protocols/ycsb_common/rendezvous_barrier.hpp:57-70 | every step of parent or child keeps the invariant that ties ready_ to the number of waiting children |
| Barrier.Progress | protocols/ycsb_common/rendezvous_barrier.hpp:25-50 | some thread can always step |
| Barrier.EqualTypesAreUnsafe | protocols/ycsb_common/rendezvous_barrier.hpp:45-50 | two equal types in a row let a child run through the second barrier while the parent is at work |
| Barrier.ExecutablesUseTheBarrierSafely | executables/ycsb_cheetah.cpp:128-161 | the sequences of types that the three executables use separate the phases |
| Barrier.RendezvousBarrierVariable.WaitAllChildrenAndSendStart | protocols/ycsb_common/rendezvous_barrier.hpp:58-63 | the parent's three atomic accesses, once all children are ready |
| Assignment.Protocol.DoSequentialPhase | executables/ycsb_cheetah.cpp:29-48 | the loop runs serial ids worker*64+i on core worker, in order |
| Assignment.Protocol.DoRoundRobinPhase | executables/ycsb_cheetah.cpp:74-96 | the loop runs serial ids i*64+worker on core i, in order |
| Assignment.AddressesAgree | protocols/cheetah/include/cheetah.hpp:174-178 | both assignments address a serial id by the same core and transaction, its quotient and remainder |
| Assignment.SameTransactionsIff | executables/ycsb_cheetah.cpp:33-80 | initialization and execution cover the same transactions if and only if every worker runs 64 of them, or none |
| Assignment.FullEpochOrder | executables/ycsb_cheetah.cpp:29-96 | with full epochs a worker initializes one core and executes one transaction of every core, both in ascending order |
| WorkerOrder.SameWorkerIsSameVisits | executables/ycsb_cheetah.cpp:30-96 | two transactions run on the same worker in a phase exactly if some worker's loop visits both: the round-robin loop in the execution phase, the sequential one before it |
| WorkerOrder.WorkersFollowTheirLoops | executables/ycsb_cheetah.cpp:51-96 | in every state of every run a worker has finished everything that its loop comes to before an operation that it has started |
| WorkerOrder.HeldBackInExecution | executables/ycsb_cheetah.cpp:75-96 | in the execution phase an operation can step exactly if its row lets it and its worker has finished what its round-robin loop puts before it |
| WorkerOrder.HeldBackInReadPhase | executables/ycsb_cheetah.cpp:51-72 | the same in the read phase, with the sequential loop |
| WorkerOrder.FirstIsNeverHeldBack | executables/ycsb_cheetah.cpp:51-96 | the first operation of a worker's loop depends on its row only, whatever other workers do |
| WorkerOrder.CaracalHeldBack | executables/ycsb_caracal.cpp:33-48 | on a row an append waits for its worker's earlier appends and a flush for all of them, and either for the lock only when it takes it |
| WorkerOrder.ServalHeldBack | executables/ycsb_serval.cpp:52-69 | on a row an append waits for its worker's earlier appends and for nothing else |
| SortedSlots.InsertKeepsOrder | protocols/caracal/include/row_buffer.hpp:149-161 | insertion before the first greater id keeps the vector sorted |
| SortedSlots.InsertAdds | protocols/serval/include/row_region.hpp:55-67 | insertion adds exactly the new pair |
| SortedSlots.SearchFindsVisible | protocols/caracal/include/row_buffer.hpp:106-128 | one step back from the bound stands the pair with the greatest id below the limit, if there is one |
| SortedSlots.InsertAllIsUnion | protocols/caracal/include/row_buffer.hpp:131-138 | appending a sorted buffer with new ids gives the sorted union |
| SortedSlots.SameSlotsSameVector | protocols/caracal/include/row_buffer.hpp:149-161 | a sorted vector is determined by its pairs, whatever the order of the insertions |
| CaracalInvariant.PackRoundTrip | protocols/caracal/include/row_buffer.hpp:19-29 | while the epoch fits 32 bits, the packed id decodes to epoch and serial id |
| CaracalInvariant.PackIsLexicographic | protocols/caracal/include/row_buffer.hpp:13-29 | while epochs fit 32 bits, ids are ordered first by epoch and then by serial id |
| CaracalInvariant.PackOrderIsLostAtWrap | protocols/caracal/include/row_buffer.hpp:19-22 | the next epoch's ids are greater than an epoch's exactly if the next epoch is not a multiple of 2^32 |
| CaracalInvariant.MinorGcIsSuffix | protocols/caracal/include/row_buffer.hpp:163-186 | the loop removes exactly the entries before the last one that is older than the epoch |
| CaracalInvariant.MinorGcPreservesVisibility | protocols/caracal/include/row_buffer.hpp:163-186 | no search at or after the beginning of the epoch changes its answer |
| CaracalInvariant.CollectSucceeds | protocols/caracal/include/row_buffer.hpp:163-199 | whatever the interleaving so far, the assertions of the collection hold: the deleted versions are live, STABLE and distinct |
| CaracalTheorems.StepKeepsInv | protocols/caracal/include/caracal.hpp:187-267 | whoever takes the next step of a row, the invariant holds afterwards |
| CaracalTheorems.FoundContent | protocols/caracal/include/row_buffer.hpp:106-128 | once STABLE, the version a search arrives at holds what the serial order asks for |
| CaracalEquivalence.SerialEquivalence | protocols/caracal/include/caracal.hpp:86-106 | for every workload below 2^32 epochs and every interleaving, with any earlier collections: every read that has returned agrees with the serial execution, and nothing faults |
| CaracalEquivalence.FlushIsComplete | protocols/caracal/include/caracal.hpp:137-167 | when all cores have finished, buffers are empty and recorded nowhere, every version of the epoch is in the array, and a written row's array holds besides only its last older entry |
| CaracalEquivalence.FlushIsOrderIndependent | protocols/caracal/include/caracal.hpp:137-167 | two interleavings, with waiting or with skipping flushes, end with the same ids in the same order |
| CaracalEquivalence.Conservation | protocols/caracal/include/row_buffer.hpp:188-199 | the live versions are exactly the array's entries, once each, so creations and deletions add up |
| CaracalRoutes.UncontendedAppend | protocols/caracal/include/caracal.hpp:187-202 | on a free row without buffers an append ends with its version in the collected array, and buffers, recorded workers and the row's buffer pointer are what they were |
| CaracalRoutes.ContendedAppend | protocols/caracal/include/caracal.hpp:187-196 | on a row with buffers the version goes into the worker's own one and the row is recorded; array and versions stay, unless the buffer reaches its capacity, is appended and emptied |
| CaracalRoutes.CrowdedAppend | protocols/caracal/include/caracal.hpp:204-226 | an append that finds the lock taken gives the row buffers and puts its version into the worker's own one |
| CaracalRoutes.UnrecordedFlush | protocols/caracal/include/caracal.hpp:137-154 | a worker that has not recorded the row finishes its flush without taking the lock and without changing the row |
| CaracalRoutes.RecordedFlush | protocols/caracal/include/caracal.hpp:137-154 | a worker that has recorded the row appends its whole buffer to the collected array, empties it and forgets the row |
| CaracalRoutes.BuffersMeanContention | protocols/caracal/include/caracal.hpp:204-226 | in every run a row has buffers only if some earlier append of the run found the row's lock taken |
| CaracalRoutes.UnwrittenRowIsUntouched | protocols/caracal/include/caracal.hpp:137-154 | in every run, throughout an epoch without writers of the row its array, buffers, versions and counters stay what they were; nothing is collected |
| CaracalProgress.Progress | protocols/caracal/include/caracal.hpp:187-267 | deadlock freedom: until a phase is over some actor of the row can step |
| CaracalProgress.PhaseIsFinite | protocols/caracal/include/caracal.hpp:187-267 | every schedule of a phase ends within a bound that each step lowers |
| CaracalProgress.CanComplete | executables/ycsb_caracal.cpp:110-140 | from every reachable state some schedule takes the row through all epochs |
| CaracalProgress.WaitsOnlyForVersion | protocols/caracal/include/caracal.hpp:287-295 | in the execution phase a write never waits, and a read only for the version that its search has found |
| CaracalObjects.Value.DoAppendPendingVersion | protocols/caracal/include/caracal.hpp:187-267 | free row without buffers: into the collected array; otherwise into the worker's buffer, to be flushed later exactly if it is not full now, and appended at once if it is |
| CaracalObjects.Value.MinorGc | protocols/caracal/include/row_buffer.hpp:163-199 | the loop deletes one version at a time and ends in the state of the transition system's collection |
| CaracalObjects.Value.BatchAppend | protocols/caracal/include/row_buffer.hpp:131-138 | collects, inserts every buffered pair, and empties the buffer |
| CaracalObjects.Value.AppendWithGc | protocols/caracal/include/row_buffer.hpp:141-147 | collects and inserts the version under its packed id |
| CaracalObjects.Value.Appendable | protocols/caracal/include/row_buffer.hpp:36-55 | inserts in order into the core's own buffer and reports whether it still has room |
| CaracalObjects.Value.SearchVisibleVersion | protocols/caracal/include/row_buffer.hpp:106-128 | returns the entry with the greatest packed id below the reader's |
| CaracalObjects.Worker.FinalizeBatchAppendNonOptimized | protocols/caracal/include/caracal.hpp:156-167 | every appended row, and no other, has taken over the buffer |
| CaracalObjects.Worker.FinalizeBatchAppendOptimized | protocols/caracal/include/caracal.hpp:137-154 | the nested loops end, for any finite pattern of failing try_locks, in the same state as the blocking flush |
| ServalRegion.GetIsRank | protocols/serval/include/row_region.hpp:150-177 | get returns the version that stands at the transaction's rank |
| ServalRegion.AppendAdds | protocols/serval/include/row_region.hpp:195-220 | an append behind all transactions of the core adds exactly the new version and moves none |
| ServalRegion.IdentifyVisibleIsMaxBelow | protocols/serval/include/row_region.hpp:233-263 | the lookup in the region returns the greatest serial id below the reader's, and "not found" exactly when there is none |
| ServalRegion.ArrayLookupFindsVisible | protocols/serval/include/row_region.hpp:35-53 | the search in the global array returns the version with the greatest serial id below the reader's |
| ServalRegion.MoveKeepsContent | protocols/serval/include/serval.hpp:239-246 | the region that the move fills has exactly the array's versions under their serial ids |
| ServalRegion.MovePreservesLookup | protocols/serval/include/serval.hpp:239-246 | for every reader, identify and get on the moved region give what the search in the array gave |
| ServalData.SizeAssertionFailsForFullCore | protocols/serval/include/row_region.hpp:195-209 | the assertion on the size after the append fails exactly when all other transactions of the core have written the row |
| ServalData.InitializeData | protocols/serval/include/value.hpp:45-72 | in every reachable state initialize_the_row's assertions hold, its last version becomes the master and everything freed is live, STABLE and freed once |
| ServalData.GcData | protocols/serval/include/row_region.hpp:116-133 | the first write of a core frees its stale versions, none of which is the master or of this epoch |
| ServalTheorems.StepKeepsInv | protocols/serval/include/serval.hpp:174-263 | whoever takes the next step of a row, the invariant holds afterwards |
| ServalTheorems.LookupFindsVisible | protocols/serval/include/serval.hpp:106-135 | for a row written in the epoch, array search or bitmap lookup with rank indexing gives the largest smaller writer's version, and falls back to the master exactly without one |
| ServalEquivalence.InitPhaseProtocol | protocols/serval/include/serval.hpp:174-263 | initialize_the_row runs at most once an epoch, before the epoch is published and before any append; array and region are never both dirty; a region is installed only where there is none |
| ServalEquivalence.WrittenRowIsComplete | protocols/serval/include/serval.hpp:282-303 | at the end of the phase a written row has been initialized once and holds exactly the epoch's writers, once each |
| ServalEquivalence.DelayedGcIsSafe | protocols/serval/include/value.hpp:36-66 | the master is in no array, every live version is in its place, a core's array has only versions of that core, and creations and deletions add up |
| ServalEquivalence.WrittenRowReadsAreSerial | protocols/serval/include/serval.hpp:106-135 | in every run, a read of a row written in the reader's epoch returns what the serial execution returns |
| ServalEquivalence.ReadIsSerialIff | protocols/serval/include/serval.hpp:98-104 | a read agrees with the serial execution if and only if val->epoch_ is the current epoch or 0 |
| ServalRoutes.UncontendedAppend | protocols/serval/include/serval.hpp:174-198 | on a free row without a region an append initializes the row if it is the first, and ends in the global array; the row still has no region |
| ServalRoutes.ContendedAppend | protocols/serval/include/serval.hpp:174-198 | on a free row with a region the version goes into its core's array there |
| ServalRoutes.UnlockedRegionRoute | protocols/serval/include/serval.hpp:201-206 | with the lock taken and a region there, the version goes into the region at once and no lock is taken |
| ServalRoutes.WaitingSpins | protocols/serval/include/serval.hpp:209-231 | with the lock taken and no region, the append waits in the loop that loads the region and tries the lock |
| ServalRoutes.WaitingAppend | protocols/serval/include/serval.hpp:209-231 | a waiting append that finds the lock free moves the array into a fresh region and then appends its version there |
| ServalRoutes.LateRoute | protocols/serval/include/serval.hpp:209-231 | a waiting append that finds a region uses it, also when it has taken the lock in the meantime |
| ServalRoutes.GuardPasses | protocols/serval/include/serval.hpp:248-263 | a row that was initialized in this epoch is passed without trying the lock |
| ServalRoutes.GuardSpins | protocols/serval/include/serval.hpp:248-263 | while somebody else has the lock of a row not yet initialized, the guard comes back to loading the epoch |
| ServalRoutes.ContentionInstallsRegion | protocols/serval/include/serval.hpp:203-231 | in every run an append that has found the lock taken ends with a region installed and its version in its core's array there |
| ServalRoutes.RegionMeansContention | protocols/serval/include/serval.hpp:203-231 | in every run a row has a region only if some earlier append of the run found the row's lock taken |
| ServalContention.TwoContendersGetARegion | protocols/serval/include/serval.hpp:203-231 | a concrete workload and run: two writers contend, and the row ends with a region that holds both versions and an empty array |
| ServalProgress.Progress | protocols/serval/include/serval.hpp:174-263 | until a phase is over some actor of the row has a step that brings its end closer |
| ServalProgress.CanComplete | executables/ycsb_serval.cpp:130-156 | from every reachable state some schedule takes the row through all epochs |
| ServalProgress.WaitsOnlyForVersion | protocols/serval/include/serval.hpp:270-281 | in the execution phase a write never waits, and a read only for the writer of the version it has found |
| ServalStaleRead.CrossEpochReadIsNotSerial | protocols/serval/include/serval.hpp:98-104 | a concrete workload and run: written in the first epoch, read in the second, the read returns the loaded content |
| ServalObjects.Value.InitializeTheRow | protocols/serval/include/value.hpp:45-72 | the new state is the transition system's: last version to master, the rest of the array freed or the core bitmap cleared |
| ServalObjects.Value.MinorGc | protocols/serval/include/row_region.hpp:69-81 | the loop deletes each version once |
| ServalObjects.Value.MoveGlobalArrayToRowRegion | protocols/serval/include/serval.hpp:239-246 | the loop fills a fresh region with the array's versions and clears the array |
| ServalObjects.Value.AppendToRegion | protocols/serval/include/row_region.hpp:285-304 | a first write empties the core's array and sets its bit; then the version goes behind the core's others |
| ServalObjects.Value.DoAppendPendingVersion | protocols/serval/include/serval.hpp:174-206 | the first append of the epoch initializes the row; then the version goes to the global array if the lock is free and there is no region, and else into the region |
| ServalObjects.Value.WaitRegionInstallation | protocols/serval/include/serval.hpp:209-231 | an installed region is kept; else a fresh one gets the array's versions and the array is cleared |
| ServalRoutes.RegionAloneIsSteps | protocols/serval/include/row_region.hpp:285-304 | the uninterrupted append is what the transition system's steps do |
| ServalObjects.Value.SearchVisibleVersion | protocols/serval/include/row_region.hpp:35-53 | found: the pair with the greatest serial id below the reader's; not found: there is none |

## Left out

- Masstree and its wrapper: the index is a fixed total map from key to row; "key not found" is not modelled.
- TPC-C, its keys and the naive tests: documented as unsupported, and unconnected to these protocols.
- protocols/common/epoch_manager.hpp and protocols/common/timestamp_manager.hpp: no executable uses them.
- MajorGC of Serval and Caracal: its calls are commented out.
- NUMA pinning, performance counters, logging, statistics files: platform calls; only the Create and Delete counts are kept.
- Zipf and random key generation: transactions are arbitrary inputs with distinct keys.
- Record contents: a record is the tag of the write that produced it; sizes and allocation are not modelled.
- Exhausted regions or buffers (NUM_REGIONS): a fresh region or buffer is always available; Caracal's spare buffer only saves one.
- Shared and upgrade modes of the lock: the protocols take it in exclusive mode only.
- Fairness of locks and spins: a blocked acquisition is a disabled step in Cheetah and Caracal, where every schedule ends; Serval's try_lock loops are modelled as loops, so that only some schedules end, and one exists from every state.
- CaracalProgress.CanComplete: of one row, as everything about Caracal and Serval; that workers which go from row to row in order never block each other is proved for Cheetah only.
- ServalProgress.CanComplete: of one row, too.
- CheetahSystem: a barrier is one move of all threads; `Barrier` proves that the shared counter and the type variable behave like that.
- CheetahRow: the record pointer that `read` returns after giving up its reference is not used by the executables, so its use after the return is not modelled.
- ServalRow: filling a fresh region and storing it to row_region_ are one step, since no other thread can reach the region or the locked array in between; a new version is created in the step that inserts it.
- CheetahObjects.RWLock.Lock: called when the lock is free; waiting for it is a disabled step of the transition system.
- CaracalObjects.Worker.FinalizeBatchAppendOptimized: other workers' changes between two attempts are in the transition system, not in the loop; the pattern of failing attempts is finite.
- CaracalEquivalence.FlushIsOrderIndependent: compares ids; which heap address a version gets depends on the interleaving.
- ServalObjects.Value.AppendToRegion: uninterrupted run; interleavings with other cores are in the transition system.
