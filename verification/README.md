# Verification of the RedPar module and the libcds parts it rests on

RedPar is a Redis module that executes commands on a pool of worker threads. Its
list commands run on a lock-free skip list of libcds, whose memory is reclaimed with
hazard pointers. This project models, in Dafny, the parts of that system whose
correctness is not visible from any one function, and proves what they are for.

`dafny verify dfyconfig.toml` checks everything.

| module | models | main results |
|---|---|---|
| `HazardProtocol`, `HazardShape`, `HazardSafety`, `HazardRoom`, `HazardCopy` | `deps/cds/src/hp.cpp` as a state machine; a step is one shared-memory access of one thread | no use after free, exactly-once reclamation, exact ownership, room for every push, over all interleavings of any number of threads |
| `HazardProgress`, `HazardFinish` | the same machine | what operations get done: help_scan takes over every abandoned record, scans and detaches leave only guarded pointers, attach reuses records; a detach is wait-free, and every operation ends if left alone |
| `Reclaim`, `HazardScan` | the scans of `hp.cpp` as loops over an array | the low-bit marks keep the array searchable; exact outcome of each scan |
| `DynamicHazard` | `deps/cds/src/dhp.cpp`, `deps/cds/cds/gc/dhp.h`: in-place compaction of a linked list of blocks | write cursor never passes read cursor; exactly when a scan is correct and leaves room |
| `FlatCombining` | `fcdeque.h`, `fcqueue.h`, `fcstack.h` and the combining loop of the kernel | linearizability with elimination; when operations eliminate each other |
| `ContainerLaws` | the containers behind it | first in first out, last in first out, both ends of the deque, emptiness and clearing, over every history and run |
| `SortedList`, `Commands` | `src/llca.cpp`, `src/skip_list.cpp` | the list refines a multiset, persistence round trips, the commands over objects mean what they mean over values |
| `CommandLaws` | runs of those commands | bindings, members, multiplicities and every reply, told by the commands before |
| `Execution`, `ExecutionSerial`, `ExecutionConflict`, `EventQueue` | `src/eventqueue.*`, `src/redpar.cpp`, and execute broken up into its accesses to shared memory | reference-counted event life cycle; for any number of threads, exactly which commands may overlap; the queue with one worker equals sequential execution |
| `Bits`, `BitField`, `Splitter`, `Avalanche`, `BitReversal` | packed fields, bit string cutting, hash finalizer and its inverse, bit reversal | independence of fields, cuts laid end to end, inverses, agreement of three algorithms |
| `Words`, `Word32`, `Word64`, `Hash32`, `Hash64` | the same finalizer on machine words | shift, `^`, `&`, `+` and `*` of a word are those of its number; known answers |

Where the code does not do what its comments or callers expect, the model follows the
code, and a lemma states exactly when the expectation holds:

- `classic_scan` tests `first_retired->m_p` in every round (hp.cpp:426), so it keeps all or
  nothing. `WrittenIsSafeIff` and `WrittenMeetsIntentIff` give the exact conditions,
  `WrittenFreesGuarded` an input; `ClassicScan` is the loop with the intended test.
- A hazard pointer copied from a higher to a lower slot can be missed by a scan, which reads
  the slots of a record upwards: `CopyLosesIff`, for every number of slots and every pair of
  them. GuardArray::copy (hp.h:1034) takes indices, not slots. The indices of the first array
  a thread allocates stand for ascending slots, but freeing an array puts its slots back in
  reverse order (hp.h:199-213), so for the next array of the same size the order is turned
  around, and so on (`SlotsAlternate`). A copy from index 2L+1 to index 2L, as at
  skip_list.h:1216, thus can lose protection in every other operation: `IndexCopyLosesIff`.
- A requested retired capacity of exactly one cell per hazard pointer is accepted
  (hp.cpp:80-84), and a scan can then free nothing: `ExactCapacityMayStayFull`.
- DHP's `extend` makes the new block current even when the compaction left the write cursor
  inside an old block, and the stale cells between are read again: `ScanExactIff` says when
  (a full list of which something, but less than a quarter, was freed), `GapDisposesTwice`
  and `GapExample` show the consequence.
- DHP's `free_thread_data` gives back trailing blocks but leaves `list_tail_` on one of them
  (dhp.cpp:349-361); the contract of `Scan` says that exactly then a full list may stay full,
  and `LoseTail` gets there from an empty list.
- `llca_remove` never decrements `len`, which `llca_rdb_save` writes as the element count:
  `RoundTripsIff`, `SavedHistoryIff`, `StaleLengthSwallows`.
- An emptied list emits no commands when the append-only file is rewritten, so its key is
  gone after a replay: `RewriteRebuilds`.
- `llca_type.insert` binds a new key after it has released the lock (llca.cpp:201-218): the
  contract of `OnList` counts exactly these writes. With two workers two such inserts lose one
  of the values (`InsertOverInsert`).
- `lookup_key` takes no lock (skip_list.cpp:47-61), so a delete on another thread can free the
  object that a command is about to use (`DeleteUnderSetOp`), and the list commands read the
  type of a key (llca.cpp:121-123) and relink cells without it (`DeleteUnderListOp`,
  `RemoveUnder`). `MayOverlapIff` is the exact condition under which two commands may overlap.
  The module as built has one worker, but its `llca_seq` commands run on the server's thread
  beside it: `AsBuiltIff`.
- `byte_splitter::safe_cut` never cuts the last byte (split_bitstring.h:286): `SafeCutIff`,
  `LastByteNeverCut`. `number_splitter` masks with an `int`, so its cuts are defined up to 30
  bits: `NumberSplitter.Cut`.

## Model

| member | source | states |
|---|---|---|
| `HazardShape.ShapeStep` | deps/cds/src/hp.cpp:230-266 | every single step of attach, detach, guard use, retire, scan and help_scan keeps the structure: acyclic list, consistent ownership, guards cleared before ownership is dropped, a free record has nothing retired |
| `HazardSafety.NoUseAfterFree` | deps/cds/cds/gc/hp.h:773-784 | in every run a pointer in a guard that was validated after publication, or copied upwards from such a guard, has not been freed since it was last allocated, and its address cannot be given out anew |
| `HazardSafety.HeldPointerSurvivesScan` | deps/cds/src/hp.cpp:339-382 | a pointer that one guard slot of a continuously owned record holds from before the scan loads the list head until the scan reads that slot is kept by that scan |
| `HazardSafety.WatchedScanStep` | deps/cds/src/hp.cpp:339-362 | the separate reads of a scan cannot step over an occupied slot: it is still ahead or its pointer has been seen |
| `HazardSafety.ValidateSafe` | deps/cds/cds/gc/hp.h:773-784 | re-reading the source after publishing puts every later and every running scan on notice |
| `HazardSafety.CopySafe` | deps/cds/cds/gc/hp.h:1034-1037 | copying a protected pointer to a higher slot keeps it protected against running scans |
| `HazardProgress.ProtectedWhileHeld` | deps/cds/cds/gc/hp.h:773-784 | over all runs: from the second load of protect on, the pointer in the guard is not freed, nor its address given out anew, as long as the guard holds it |
| `HazardCopy.CopyDownLoses` | deps/cds/cds/gc/hp.h:1034-1037 | for every number of slots and every copy to a lower one, a run in which the protected pointer is freed while it is there |
| `HazardCopy.CopyLosesIff` | deps/cds/cds/gc/hp.h:1034-1037 | over all runs, a copy between two slots can lose protection if and only if it goes to the lower one |
| `HazardCopy.GuardStorage.Alloc` | deps/cds/cds/gc/hp.h:176-196 | an array gets the first slots of the free list in order, or none |
| `HazardCopy.GuardStorage.Free` | deps/cds/cds/gc/hp.h:198-213 | its slots go to the front of the list in reverse |
| `HazardCopy.SlotsAlternate` | deps/cds/cds/gc/hp.h:176-213 | which slot each index stands for: in order and in reverse by turns |
| `HazardCopy.IndexCopyLosesIff` | deps/cds/cds/intrusive/impl/skip_list.h:1210-1220 | a copy between two indices can lose protection if and only if it goes to the lower index on an even round or to the higher on an odd one |
| `HazardSafety.ExactlyOnce` | deps/cds/src/hp.cpp:441-490 | in every run, with freed addresses allocated and retired again: every retirement is pending or was answered by one disposal; a pointer retired since its last allocation waits in exactly one place of one record or is freed, never both |
| `HazardSafety.AccountedStep` | deps/cds/src/hp.cpp:364-382 | each step conserves, for every pointer, pending copies plus freed copies |
| `HazardCopy.FreedManyTimes` | deps/cds/src/hp.cpp:364-382 | for every number of slots and every n a run in which one address is allocated, retired and freed n times |
| `HazardSafety.Destroy` | deps/cds/src/hp.cpp:154-181 | after the destructor every pointer has been freed exactly as often as it was retired |
| `HazardSafety.OneHolder` | deps/cds/src/hp.cpp:454-486 | in every run a record has at most one holder, its owner or its helper, and a set free flag means an empty retired array |
| `HazardSafety.ListIsExact` | deps/cds/src/hp.cpp:245-256 | following the links ends, meets no record twice and finds exactly the records whose head swap succeeded |
| `HazardSafety.ListOnlyGrows` | deps/cds/src/hp.cpp:248-254 | competing pushes lose no record: what was in the list stays there, in order |
| `HazardProgress.HelpTakesOver` | deps/cds/src/hp.cpp:441-490 | over all runs: a record of the list that is abandoned, or taken by the helper, from the start of a help_scan to its end is emptied and marked free by then, and each pointer it held is in the helper's array or freed |
| `HazardProgress.ScanLeavesOnlyHeld` | deps/cds/src/hp.cpp:339-382 | over all runs: every pointer that a scan, set off by a call or by a full array, leaves in the array was in some guard at some point of the scan |
| `HazardProgress.DetachLeavesOnlyHeld` | deps/cds/src/hp.cpp:258-266 | over all runs: every pointer a detach leaves behind, its own or taken over, was in some guard at some point of the detach |
| `HazardProgress.AttachReuses` | deps/cds/src/hp.cpp:236-246 | over all runs: a record is created only if each record that was in the list when the search began was in use at some point of it |
| `HazardFinish.DetachIsWaitFree` | deps/cds/src/hp.cpp:258-266 | in every run each step of a detaching thread leaves it less to do, in a well-founded order, and no step of another thread gives it more |
| `HazardRoom.PushFindsRoom` | deps/cds/src/hp.cpp:472-482 | while the capacity exceeds one cell per guard in the list, retire and help_scan always find a free cell |
| `HazardRoom.ScanFreesHalf` | deps/cds/src/hp.cpp:144-149 | in every run a scan keeps at most one pointer per guard of the records it found owned; with the default capacity it frees half of a full array |
| `HazardRoom.NeverStuck` | deps/cds/src/hp.cpp:441-490 | in such runs every thread can always take a next step, whatever the others do; FinishesAlone says that the steps lead somewhere |
| `HazardFinish.FinishesAlone` | deps/cds/src/hp.cpp:230-266 | from every state of such a run a thread that goes on alone completes the attach, detach or scan it is in |
| `HazardScan.MarkedStrict` | deps/cds/src/hp.cpp:309-362 | setting low bits in a strictly ascending array of even keys keeps it strictly ascending |
| `HazardScan.MarkedNext` | deps/cds/src/hp.cpp:349-356 | the cell a search for a guard finds is its own, marked or not, and marking it adds exactly that guard to the marked ones |
| `HazardScan.LowerBound` | deps/cds/src/hp.cpp:352-352 | the position before which all keys are smaller and from which none is |
| `HazardScan.HazardsAreGuarded` | deps/cds/src/hp.cpp:339-349 | the pointers a scan spares are exactly those, not null, in a guard slot of a record that has an owner |
| `HazardScan.RetiredArray.InplaceScan` | deps/cds/src/hp.cpp:297-383 | sort, mark, compact in place: of aligned pointers exactly those in a guard of an owned record stay, sorted and unmarked, the others are disposed of once; a misaligned pointer hands over to the classic scan |
| `HazardScan.RetiredArray.MarkGuarded` | deps/cds/src/hp.cpp:339-362 | after walking the records exactly the guarded pointers carry the mark |
| `HazardScan.RetiredArray.Compact` | deps/cds/src/hp.cpp:364-382 | marked pointers are moved up and unmarked, unmarked ones disposed of |
| `HazardScan.RetiredArray.ClassicScan` | deps/cds/src/hp.cpp:386-439 | the scan with the intended test keeps exactly the pointers in a guard of an owned record, in order, and disposes of the others once |
| `HazardScan.RetiredArray.ClassicScanAsWritten` | deps/cds/src/hp.cpp:386-439 | the scan with the test of line 426 keeps all or nothing, by the first pointer |
| `HazardScan.WrittenIsSafeIff` | deps/cds/src/hp.cpp:421-436 | as written it spares every guarded pointer if and only if the first is guarded or none is |
| `HazardScan.WrittenMeetsIntentIff` | deps/cds/src/hp.cpp:421-436 | as written it does what a scan is for if and only if all pointers are guarded or none is |
| `HazardScan.WrittenFreesGuarded` | deps/cds/src/hp.cpp:426-426 | an array and a guard for which it frees a guarded pointer |
| `HazardScan.ScansAgree` | deps/cds/src/hp.cpp:297-438 | the in-place scan and the classic scan as meant both split the array into guarded and unguarded pointers, and keep the same ones |
| `HazardScan.CollectHazards` | deps/cds/src/hp.cpp:396-413 | the sorted list of the non-null guards of owned records |
| `HazardScan.KeptBound` | deps/cds/src/hp.cpp:364-381 | kept pointers inject into the guards of owned records |
| `HazardScan.FullScanMakesRoom` | deps/cds/src/hp.cpp:80-84 | scanning a full array of the calculated capacity frees a cell unless exactly one cell per guard was asked for, and frees half by default |
| `HazardScan.DefaultCapacityIsLeast` | deps/cds/src/hp.cpp:80-84 | the default capacity is the least one of which a scan that keeps a pointer per guard frees half; a request of at least one cell per guard is granted as it is |
| `HazardScan.ExactCapacityMayStayFull` | deps/cds/src/hp.cpp:80-84 | for every hazard and thread count, with exactly that capacity a scan of a full array may free nothing |
| `DynamicHazard.CompactedNext` | deps/cds/src/dhp.cpp:378-394 | reading one more cell and keeping or dropping it keeps the write cursor at or behind the read cursor and everything from it on unchanged |
| `DynamicHazard.RetiredBlocks.Push` | deps/cds/cds/gc/dhp.h:325-358 | writes the cell at the cursor and moves it one on, over block boundaries |
| `DynamicHazard.RetiredBlocks.RetireData` | deps/cds/src/dhp.cpp:378-394 | compacts the cells of one block |
| `DynamicHazard.RetiredBlocks.CompactBlocks` | deps/cds/src/dhp.cpp:433-450 | the loop over the blocks leaves in front of the cursor exactly the hazardous entries, in order, and disposes of the others once each |
| `DynamicHazard.RetiredBlocks.Extend` | deps/cds/cds/gc/dhp.h:392-405 | links one block behind the tail and makes it current: readers then see every old cell |
| `DynamicHazard.RetiredBlocks.Scan` | deps/cds/src/dhp.cpp:398-456 | what readers find afterwards, what was disposed of, that a block is added exactly to a full list of which less than a quarter was freed, and exactly when there is room for another push |
| `DynamicHazard.RetiredBlocks.ScanSpares` | deps/cds/src/dhp.cpp:398-456 | told by the guards: exactly the pointers in no guard of an owned record are disposed of, and outside the gap case exactly the others are kept |
| `DynamicHazard.ScanExactIff` | deps/cds/src/dhp.cpp:453-455 | a scan leaves exactly the hazardous entries, and conserves all, if and only if it is not the case that a full list had something but less than a quarter freed |
| `DynamicHazard.GapDisposesTwice` | deps/cds/src/dhp.cpp:453-455 | in that case some pointer is disposed of and still listed, or listed twice |
| `DynamicHazard.GapExample` | deps/cds/src/dhp.cpp:453-455 | such a block |
| `DynamicHazard.RetiredBlocks.Trim` | deps/cds/src/dhp.cpp:349-361 | giving back trailing blocks keeps the contents, and loses the tail exactly when there were any |
| `DynamicHazard.LoseTail` | deps/cds/src/dhp.cpp:349-361 | pushes, scans and a detach after which a scan leaves the list full |
| `DynamicHazard.RetiredBlocks.DisposeAll` | deps/cds/src/dhp.cpp:220-232 | the destructor disposes of exactly what readers see |
| `FlatCombining.DecideSound` | deps/cds/cds/container/fcdeque.h:428-569 | whenever two records collide, executing the push and then the pop on the actual container gives the pop the pushed value and the container back; for the deque, the queue (only when empty) and the stack |
| `FlatCombining.DecideExact` | deps/cds/cds/container/fcdeque.h:428-548 | two operations visited in succession collide if and only if push and pop cancel out on every container of that emptiness, but for a pop found on an empty deque after a push at its own end; which operations are remembered |
| `FlatCombining.VisitEliminates` | deps/cds/cds/container/fcstack.h:343-390 | such a visit answers both and touches nothing else |
| `FlatCombining.ExplainsCollision` | deps/cds/cds/container/fcqueue.h:376-404 | a collision is two sequential effects |
| `FlatCombining.Linearizable` | deps/cds/cds/container/fcstack.h:300-390 | in every run, with operations arriving and answers taken at any time, the history executes sequentially to the container and answers found, each operation taking effect once between publication and answer |
| `FlatCombining.Combiner.FcProcess` | deps/cds/cds/container/fcdeque.h:428-548 | the elimination pass leaves the container alone, completes records only in pairs a sequential order explains, touches no other record, and does complete the first two operations of a batch if they collide |
| `FlatCombining.Combiner.FcApply` | deps/cds/cds/container/fcdeque.h:380-425 | one pending record is executed and completed |
| `FlatCombining.Combiner.BatchCombining` | deps/cds/cds/algo/flat_combining/kernel.h:735-748 | any number of elimination passes followed by applying what is pending equals some sequential order of the batch; every pending record is completed once |
| `ContainerLaws.Answers` | deps/cds/cds/container/fcstack.h:300-334 | in every sequential history pushes and clears are acknowledged, and a pop fails, and the test for emptiness says so, exactly when the pushes since the last clear do not outnumber the successful pops |
| `ContainerLaws.ClearEmpties` | deps/cds/cds/container/fcdeque.h:417-420 | after a clear, and until a push, every pop fails |
| `ContainerLaws.QueueLaw` | deps/cds/cds/container/fcqueue.h:314-342 | FCQueue: the values that entered since the last clear, in order, are those that left followed by those there |
| `ContainerLaws.StackLaw` | deps/cds/cds/container/fcstack.h:300-334 | FCStack: a pop hands out the latest push not yet popped, or what was there to begin with |
| `ContainerLaws.EndsPopped` | deps/cds/cds/container/fcdeque.h:380-425 | FCDeque: each pop hands out the value of the push that came to be at its end |
| `ContainerLaws.OriginIs` | deps/cds/cds/container/fcdeque.h:380-425 | and each element is the value of the push that put it where it is |
| `ContainerLaws.EndsAlike` | deps/cds/cds/container/fcdeque.h:380-425 | front and back are alike: every history, with the ends exchanged, is one of the reversed deque |
| `ContainerLaws.RunIsFifo` | deps/cds/cds/container/fcqueue.h:314-404 | so in every run of a combined queue, eliminations included |
| `ContainerLaws.RunIsLifo` | deps/cds/cds/container/fcstack.h:300-390 | and of a combined stack that starts empty |
| `ContainerLaws.RunKeepsEnds` | deps/cds/cds/container/fcdeque.h:380-569 | and of any container: its size, both ends and the answers about emptiness |
| `SortedList.List.Insert` | src/llca.cpp:28-49 | one new cell in front of the first value that is not smaller; acyclic, sorted, nothing freed, `len` counted modulo 2^64 |
| `SortedList.List.Remove` | src/llca.cpp:51-82 | the first copy goes and exactly its cell is freed, or it reports failure and nothing changes; `len` stays |
| `SortedList.List.Contains` | src/llca.cpp:84-93 | membership |
| `SortedList.List.Release` | src/llca.cpp:96-106 | frees each linked cell once and reads none after freeing it |
| `SortedList.InsertedAddsOne` | src/llca.cpp:28-49 | insertion adds one copy to the multiset |
| `SortedList.RemovedTakesOne` | src/llca.cpp:51-82 | removal takes one copy from the multiset, if there is one |
| `SortedList.PlayRefinesBag` | src/llca.cpp:28-82 | every history keeps the list sorted and equal to its multiset; `len` is the number of insertions, the cell count falls short of it by the successful removals |
| `SortedList.SortedUnique` | src/llca.cpp:245-287 | a sorted list is determined by its multiset |
| `SortedList.SameBagSameStream` | src/llca.cpp:245-287 | histories with equal multisets give the same element stream for save, rewrite and digest |
| `SortedList.List.RdbSave` | src/llca.cpp:245-253 | the stream is `len` and then the values |
| `SortedList.RdbLoad` | src/llca.cpp:231-243 | inserts as many elements as the header announces; nothing is loaded for another encoding version or a stream that runs out |
| `SortedList.RoundTripsIff` | src/llca.cpp:231-253 | loading a saved list gives it back and stops right behind it, whatever follows, if and only if `len` is the number of cells |
| `SortedList.SavedHistoryIff` | src/llca.cpp:28-82 | a list survives save and load if and only if its counter is right, which below 2^64 insertions means that no removal ever succeeded |
| `SortedList.StaleLengthSwallows` | src/llca.cpp:238-241 | with a stale counter the elements that follow in the file become part of the list |
| `SortedList.List.AofRewrite` | src/llca.cpp:256-263 | emits the values in list order |
| `SortedList.InsertAllRebuilds` | src/llca.cpp:238-241 | inserting a sorted sequence one by one rebuilds it |
| `Commands.RewriteRebuilds` | src/llca.cpp:256-263 | replaying a rewrite rebuilds the list under its key and no other, if and only if it was not empty |
| `Commands.Server.Create` | src/skip_list.cpp:90-111 | one reply, lock given back, a new key bound under the lock to a new object |
| `Commands.Server.Delete` | src/skip_list.cpp:113-139 | one reply, lock given back, key and object go together |
| `Commands.Server.LookupKey` | src/skip_list.cpp:47-61 | the object's address, or one error reply |
| `Commands.Server.OnSet` | src/skip_list.cpp:141-205 | insert, remove and contains act on the one object of the key as on a value |
| `Commands.Server.OnList` | src/llca.cpp:111-226 | the list commands act on multisets; a key is bound without the lock exactly when insert creates it |
| `Commands.Server.Execute` | src/eventqueue.h:57-62 | every command sends exactly one reply, balances the lock, keeps objects one to a key and none unbound, and has the effect it means over plain values |
| `Commands.RunSequentially` | src/eventqueue.h:57-62 | the sequential handler for a list of commands: final key space and each reply |
| `CommandLaws.RunIs` | src/skip_list.cpp:90-205 | after any commands each key is bound to what the commands say, its set holds x if the last insert or remove of x since its creation was an insert, and its list holds x as often as inserts and removes say |
| `CommandLaws.OtherKeysKept` | src/skip_list.cpp:90-205 | a command leaves every key but its own alone |
| `CommandLaws.OnlySuccessChanges` | src/skip_list.cpp:90-205 | a command that does not report success changes nothing, and a lookup never does |
| `CommandLaws.CreateReplies` | src/skip_list.cpp:90-139 | the reply to every create and delete in a run, told by the commands before it |
| `CommandLaws.SetReplies` | src/skip_list.cpp:141-205 | the reply to every insert, remove and contains, told by the commands before it |
| `CommandLaws.ListReplies` | src/llca.cpp:111-226 | the reply to every list command, told by the commands before it |
| `CommandLaws.MemberIff` | src/skip_list.cpp:141-205 | a set holds x if and only if some insert of x found the set and x was not removed nor the key deleted since, or x was there to begin with and neither ever happened |
| `CommandLaws.LookupSeesLast` | src/skip_list.cpp:141-182 | contains and remove answer OK, and insert that the value exists, if and only if that is so |
| `CommandLaws.TimesBalance` | src/llca.cpp:28-93 | a list holds x as often as to begin with, plus the inserts and less the removes of x answered with success |
| `ExecutionSerial.AccessMeans` | src/llca.cpp:111-226 | while a command is undisturbed none of its accesses is to anything freed, one of them decides the answer and takes the effect that the command means, and the others change nothing in the key space |
| `ExecutionSerial.OtherStep` | src/skip_list.cpp:141-205 | an access keeps what every other command under way relies on, unless the two conflict |
| `ExecutionSerial.NoClashIsSerial` | src/skip_list.cpp:90-205 | for any number of threads: as long as no two commands under way conflict, nothing freed is touched, and key space and answers are those of the commands executed one after the other |
| `ExecutionConflict.InsertOverInsert` | src/llca.cpp:201-224 | two inserts that find their key missing: a run that loses a value |
| `ExecutionConflict.InsertOverCreate` | src/llca.cpp:201-224 | an insert replaces a set that was created meanwhile, and both report success |
| `ExecutionConflict.ContainsBeforeFill` | src/llca.cpp:216-223 | a list is found without the value that its creator is about to link |
| `ExecutionConflict.DeleteUnderSetOp` | src/skip_list.cpp:132-160 | a delete frees the set that another command has looked up |
| `ExecutionConflict.DeleteUnderListOp` | src/llca.cpp:119-126 | a delete frees the object whose type a list command is about to read |
| `ExecutionConflict.RemoveUnder` | src/llca.cpp:51-93 | a removal frees the cell that another list command stands on or is about to relink |
| `ExecutionConflict.MayOverlapIff` | src/llca.cpp:111-226 | two commands on two agents always end as one after the other would, whatever the key space and the interleaving, if and only if they do not conflict |
| `ExecutionConflict.AsBuiltIff` | src/eventqueue.h:57-62 | which commands of the sequential handler may overlap which queued ones |
| `EventQueue.InvStep` | src/eventqueue.cpp:25-39 | each step of handlers, queue, mutex and workers keeps the count equal to the pointers there are, and each execution with its thread |
| `EventQueue.FirstInFirstOut` | src/eventqueue.cpp:25-39 | in every run, popped and waiting events are the queued ones, in order |
| `EventQueue.ExecutedOnce` | src/redpar.cpp:16-25 | with any number of workers each event is executed at most once and replies at most once |
| `EventQueue.UnblockedOnce` | src/eventqueue.cpp:13-18 | the destructor has run exactly when nobody has a pointer to the event, at most once, and never before execute has finished |
| `EventQueue.QuietIsComplete` | src/redpar.cpp:16-25 | once nothing is under way each command was executed, answered and unblocked exactly once |
| `EventQueue.StepWorks` | src/eventqueue.h:46-55 | every step but the making of a command and a poll of the empty queue leaves less to do |
| `EventQueue.NeverStuck` | src/redpar.cpp:16-25 | until nothing is under way some thread can take such a step, whoever waits for the mutex or the lock |
| `EventQueue.Serializable` | src/redpar.cpp:16-25 | for any number of workers and commands of the sequential handler beside them, as long as no two commands under way conflict: nothing freed is touched, and key space and every reply sent are those of the commands one after the other |
| `EventQueue.OneWorkerInOrder` | src/redpar.cpp:14-25 | one worker alone executes in queue order, and never has two commands under way |
| `EventQueue.DrainedIsSequential` | src/redpar.cpp:14-25 | with one worker, as built, and no command of the sequential handler, a drained queue leaves the key space and gives each client the one reply of executing the commands directly in order, and touches nothing freed |
| `EventQueue.Queue.Drain` | src/redpar.cpp:19-24 | the worker's loop over the real queue and server refines the same run, with the lock balanced |
| `BitField.Word.Get` | deps/turf/turf/BitField.h:39-41 | reads the field |
| `Bits.FieldIsDigits` | deps/turf/turf/BitField.h:39-41 | shift and mask read the binary digits of the number from one position on |
| `BitField.Word.Assign` | deps/turf/turf/BitField.h:42-46 | the field reads back as the value, and every field that shares no bit with it is unchanged |
| `BitField.Word.Add` | deps/turf/turf/BitField.h:50-54 | an in-range sum carries nothing out of the field |
| `BitField.Word.Subtract` | deps/turf/turf/BitField.h:55-59 | an in-range difference borrows nothing |
| `BitField.CarriesIff` | deps/turf/turf/BitField.h:50-54 | the bits above stay as they are if and only if the sum fits |
| `BitField.BorrowsIff` | deps/turf/turf/BitField.h:55-59 | in a word that wraps around, the bits above stay as they are if and only if the difference is not below zero |
| `BitField.ElementsApart` | deps/turf/turf/BitField.h:137-144 | different elements of a bit field array share no bit |
| `Splitter.BitSplitter.Cut` | deps/cds/cds/algo/split_bitstring.h:105-146 | the next bits of the string as one number, and the offset moves by their count |
| `Splitter.BitSplitter.SafeCut` | deps/cds/cds/algo/split_bitstring.h:154-163 | the same for what remains |
| `Splitter.CutAll` | deps/cds/cds/algo/split_bitstring.h:105-146 | a list of cuts gives adjoining fields of the string |
| `Splitter.CutsAreTheBits` | deps/cds/cds/algo/split_bitstring.h:105-146 | laid end to end, cuts are the bits they came from, however grouped |
| `Splitter.ByteSplitter.Cut` | deps/cds/cds/algo/split_bitstring.h:253-273 | on whole bytes the same bits as the general splitter |
| `Splitter.ByteSplitter.SafeCut` | deps/cds/cds/algo/split_bitstring.h:281-290 | cuts at most all but the last byte |
| `Splitter.SafeCutIff` | deps/cds/cds/algo/split_bitstring.h:281-290 | it cuts what it promises if and only if the cut is empty, stays clear of the last byte, or nothing is left |
| `Splitter.LastByteNeverCut` | deps/cds/cds/algo/split_bitstring.h:281-290 | no series of such cuts reaches the end of the string |
| `Splitter.NumberSplitter.Cut` | deps/cds/cds/algo/split_bitstring.h:380-389 | the bits of the number, defined exactly for counts up to 30 |
| `Splitter.NumberSplitter.SafeCut` | deps/cds/cds/algo/split_bitstring.h:397-406 | the same for what remains |
| `Avalanche.FoldTwice` | deps/turf/turf/Util.h:143-178 | for every width a xor-shift by half of it or more undoes itself |
| `Avalanche.RefoldInverts` | deps/turf/turf/Util.h:152-159 | for every width the doubled xor-shift inverts a shift by a third of it or more, both ways |
| `Avalanche.TimesInverts` | deps/turf/turf/Util.h:143-178 | multiplying by a number and its inverse modulo the word size changes nothing |
| `Avalanche.DeavalancheInverts32` | deps/turf/turf/Util.h:143-159 | deavalanche undoes avalanche on all 32-bit words |
| `Avalanche.AvalancheInverts32` | deps/turf/turf/Util.h:143-159 | and the other way round |
| `Avalanche.DeavalancheInverts64` | deps/turf/turf/Util.h:162-178 | deavalanche undoes avalanche on all 64-bit words |
| `Avalanche.AvalancheInverts64` | deps/turf/turf/Util.h:162-178 | and the other way round |
| `Word32.FoldedIs` | deps/turf/turf/Util.h:144-148 | on 32-bit words, h ^ (h >> k) is the xor of the number with its quotient by 2^k, for every k |
| `Word32.ScaledIs` | deps/turf/turf/Util.h:145-147 | and h * m the product of the numbers modulo 2^32 |
| `Word64.FoldedIs` | deps/turf/turf/Util.h:163-167 | the same shift on 64-bit words |
| `Word64.ScaledIs` | deps/turf/turf/Util.h:164-166 | and product modulo 2^64 |
| `Hash32.AvalancheIs` | deps/turf/turf/Util.h:143-150 | the five lines on words do to the number what Avalanche32 does |
| `Hash32.DeavalancheIs` | deps/turf/turf/Util.h:152-159 | and so for the inverse |
| `Hash32.ThereAndBack` | deps/turf/turf/Util.h:143-159 | each undoes the other on every 32-bit word |
| `Hash32.KnownAnswers` | deps/turf/turf/Util.h:143-150 | what three words are turned into; leaving out a line or changing a constant changes one of them |
| `Hash64.AvalancheIs` | deps/turf/turf/Util.h:162-169 | the five lines on 64-bit words do to the number what Avalanche64 does |
| `Hash64.DeavalancheIs` | deps/turf/turf/Util.h:171-178 | and so for the inverse |
| `Hash64.ThereAndBack` | deps/turf/turf/Util.h:162-178 | each undoes the other on every 64-bit word |
| `Hash64.KnownAnswers` | deps/turf/turf/Util.h:162-169 | what three 64-bit words are turned into |
| `BitReversal.BytewiseReverses` | deps/cds/cds/algo/bit_reversal.h:87-90 | for any number of bytes, reversing each and their order reverses all bits |
| `BitReversal.SwarReverses32` | deps/cds/cds/algo/bit_reversal.h:45-52 | SWAR reverses every 32-bit word |
| `BitReversal.SwarReverses64` | deps/cds/cds/algo/bit_reversal.h:55-59 | and every 64-bit word |
| `BitReversal.SwapsReverse` | deps/cds/cds/algo/bit_reversal.h:45-52 | for every k, swapping adjacent blocks of length 1, 2, 4, ..., 2^(k-1) reverses any sequence of length 2^k |
| `BitReversal.SwarIsSwaps` | deps/cds/cds/algo/bit_reversal.h:45-52 | the five mask-and-shift lines are those block swaps on the list of bits |
| `BitReversal.AllAgree32` | deps/cds/cds/algo/bit_reversal.h:63-145 | table, multiplication and remainder give the same reversal on every 32-bit word |
| `BitReversal.AllAgree64` | deps/cds/cds/algo/bit_reversal.h:93-157 | and on every 64-bit word, where the muldiv forms put eight bytes together |
| `BitReversal.AllReverse` | deps/cds/cds/algo/bit_reversal.h:63-157 | each of them holds the bits of the word in the opposite order, at both widths |
| `BitReversal.SwarTwice64` | deps/cds/cds/algo/bit_reversal.h:45-59 | SWAR applied twice gives the word back |
| `BitReversal.AllTwice` | deps/cds/cds/algo/bit_reversal.h:63-157 | so do the others, at both widths |
| `BitReversal.TableReverses` | deps/cds/cds/algo/bit_reversal.h:67-84 | every entry of the table is the reversal of its index |
| `BitReversal.ModReverses` | deps/cds/cds/algo/bit_reversal.h:112-115 | picking one bit from each of five copies and folding by 1023 reverses a byte |

## Left out

- Weak memory orders: every atomic access is a step of a sequentially consistent machine; fences and orders are not modelled.
- C++ assertions are taken as compiled out, except where a contract names them as demands on the caller.
- Disposer functions, allocators, thread-local storage, statistics and raw memory layout: pointers are numbers, freeing is recorded.
- In the protocol, help_scan's load of an owner and the compare-and-swap that follows are one step, as are the load of a next link, which no longer changes, and the access before it, and the moving of one retired pointer, which its holder does alone.
- In the protocol a scan ends with the outcome that `InplaceScan` has on aligned pointers and `ClassicScan` as meant (`ScansAgree` shows that it is the one the step asks for); the fallback to the classic scan as written is only in `HazardScan`.
- Retiring a pointer again before it has been freed and allocated anew is the caller's error and not a step.
- The second load of `Guard::protect` is the step that finds its pointer not retired; what keeps a retired pointer out of the shared structure is the container's business.
- HazardFinish.FinishesAlone: is about a thread alone for attaches, because the head swap of an attach can fail as often as others push; a detach needs no such condition (`DetachIsWaitFree`).
- `std::sort`, `std::lower_bound` and `std::binary_search` are written out as simple sorts and searches with their standard contracts.
- HazardScan.RetiredArray.InplaceScan: requires distinct pointers, as the code asserts in debug builds (hp.cpp:327-337); an array that holds a pointer twice is a double free.
- DHP's record protocol, which is that of `hp.cpp`, and its guard blocks: a record's guards, in whatever blocks, are one sequence of slots.
- DynamicHazard.RetiredBlocks.Push: requires a free cell, as the code asserts (dhp.h:329); a push without one writes beyond the block. The room for it is what the contract of Scan is about.
- The flat-combining publication list, its compaction and the waiting strategies: the records are a fixed sequence visited in order. Copying and moving a pushed value are the same here.
- `fcpriority_queue.h`, which has no elimination pass, and the containers that only forward to base classes.
- The skip list's own algorithm: it stands as a set with atomic insert, erase and contains.
- The Redis server: the key space is a map, a reply one of a list of texts, integer parsing a part of the argument, command registration and logging absent. Both kinds of wrong-arity, wrong-type and missing-key texts are identified.
- EventQueue.Serializable: an operation of the skip list is one access. A list operation reads its place in one access and relinks in another, and llca_contains loads the first cell and then walks on in one; finer interleavings of the walks are not modelled.
- A key handle holds the type and address that its key had when it was opened; what else the server keeps behind it is not modelled, nor are commands of the server itself on the same keys.
- `llca_digest` and `llca_mem_usage`: the digest walks the list as AofRewrite does. The TODO callbacks of `skip_list.cpp` do nothing.
- SortedList.RdbLoad: a stream that ends early or holds an item of another kind yields no list; what the server itself does then is not modelled.
- The big-endian branches of the splitters, and number_splitter over signed numbers.
- Splitter.NumberSplitter.Cut: counts above 30 overflow `int`, which is undefined; the model says that there is no value rather than what a compiler makes of it.
- `align`, `roundUpPowerOf2`, `countSetBits` and the other helpers of `Util.h`.
