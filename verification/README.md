# Verified models of the TILT runtime and compiler back end

TILT is a Standard ML compiler with its own run-time system. This project models the parts of
both whose correctness is hardest to see, and proves what they promise. There are five groups of
modules; each group has one or two theorems everything else builds up to.

**Garbage collection.** `Tags`, `RecordTags`, `HeapGraph`, `Traversal`, `Copying` and `Semi` are the two-space copying collector over
a word-addressed memory: objects are parsed from their tags, forwarding pointers overwrite tags, and a
collection produces an isomorphic copy of exactly the live graph, laid out in the order of a traversal that
`Traversal` defines as a function of the heap (`Semi.Collector.Collect`). `Survivors` and
`Minor` are the minor collection of the generational collector: given that the write list, the back objects
and the promoted globals cover the pointers into the nursery, the graph the mutator sees is carried over and
nothing points into the nursery (`Minor.Generational.Collect`). Both use the same copying code. `Replicating`
and the modules named after it are the concurrent replicating collector from switching on to the flip, as a
state machine whose steps are interleaved in any way: each load and store of a scan, and of the replay of a
write-list entry, is a step of its own. `ReplicatingProof.StepInv` says which single steps keep the invariant,
and `ReplicatingRuns.RunFlipsExactly` which steps of a whole run stand in the way of the flip.

**Synchronisation.** `Rooms`, `Barriers` with `BarriersConverse` and `BarriersProgress`, `SharedStack`, `Termination` and `Ownership` are the
protocols of the parallel collectors, one shared memory access per step, over every schedule: what they keep
in every reachable state, and that from every reachable state they can be brought to their end.

**Register allocation.** `Machine`, `Liveness`, `Ifgraph`, `Color`, `Code`, `Allocate`, `Preserve` and `Procedure` follow a
procedure from liveness analysis to rewritten code; `Preserve.RunsAgree` says that every run of the result
agrees with the original on every live register, and `Procedure.AllocateProcedure` that the code is coloured
with the machine's registers and spills only what has to be.

**Trace tables.** `Packing`, `TraceTable`, `TraceDecode` and `StackScan` are the compiler's encoder of call-site tables and
the collector's decoder; `StackScan.Cursor.ScanStack` says that the collector finds the roots the compiler meant.

**Algorithms.** `Unify`, `Hash`, `Calendar`, `Bitmap`, `LargeSpace`, `Windows`. `Counting` and `Wrappers` serve the others.

## Where the code and its promises part

The model follows the code. Where a promise fails, a lemma says exactly when it holds.

- With a stack or queue of gray objects, copying checks for space with a strict comparison, so the
  collection dies when the live objects fill toSpace to the last word; the implicit order does not
  (`Semi.Collector.Collect`, an equivalence).
- Replaying a write-list entry of an array whose replica still points back does nothing. If the replica is gray,
  the snapshot's pointer can be lost: `ReplicatingSnapshot.EdgeExact` says exactly when, and
  `ReplicatingFailures.PointerLost` is a run after which a live object is not replicated. If a scan has just
  loaded the array's first field, the write itself is lost: `ReplicatingAgree.DropSpoils` and
  `ReplicatingFailures.DroppedWrite`.
- A replay fetches a field and stores it in two steps, and another processor's newer store can come first.
  `ReplicatingAgree.FieldExact` says exactly which steps leave a field wrong and which put it right;
  `ReplicatingFailures.StaleStore` is a run that ends with one wrong.
- So the flip is not safe after every interleaving. After a given run it is, exactly when some step has made a
  replica of every object in a root, and no live field was spoilt by a step after which none healed it
  (`ReplicatingRuns.RunFlipsExactly`). Everything in the snapshot gets its replica exactly when no edge of it
  was opened by a step after which none guarded it anew (`ReplicatingRuns.SnapshotMadeExactly`).
  `ReplicatingOrderly.OrderlyRunFlips` gives an order of writes, replays and scans that excludes all of this.
- A replay waits for the segment stall tag, but a small array under scan carries the ordinary one. A replay
  that is about to read the tag dies, if nobody interrupts it, exactly when the scan has stored the first
  field: `ReplicatingProof.ReplayDiesExactly`; `ReplicatingProof.DeathExactly` says when it does over whole runs,
  and `ReplicatingFailures.ReplayDies` is one.
- Return-address offsets from 124 on are written with a mark the decoder does not look for
  (`TraceDecode.RetAddExact`); the two sides compute different numbers of words of stack bits unless the frame
  has a suitable size (`TraceDecode.StackWordsExact`); and paths of six or more indices read back only if they
  fill their words evenly, whatever the comment on their layout says (`TraceTable.PathRoundTrip`).
- A floating-point value spilled to a slot too far for a displacement is lost when it is loaded, because its
  address is built in the floating-point register, and when it is copied to another slot, because the address
  overwrites half of it (`Preserve.MoveExact`, `Preserve.PopExact`, `Preserve.FarFloatFails`).
- Barriers need strong ones close enough together for the number of counters: for two processors or more,
  what they promise holds in every schedule if and only if behind every strong barrier, and behind the start,
  two more strong ones come within a round of the counters (`BarriersConverse.SafeExactly`). The collectors'
  sequences satisfy this (`BarriersConverse.CollectorsSpaced`).

## Model

| member | source | states |
|---|---|---|
| Tags.ShiftedBit | Runtime/sparc/gcinline.h:540-556 | Shifting a record's mask right once per field brings each field's bit to the bottom in turn, so the scan visits exactly the traced fields. |
| RecordTags.RecordTagRead | Rtl/tags.sml:79-119 | What the compiler writes the collector reads: a record with 1 to 24 legal fields gets a tag in which, once its open bits are filled in, length and traced fields are the record's; other records get none. |
| RecordTags.DynamicFills | Rtl/tortl-base.sml:1099-1107 | Joining the open bits one by one makes the tag the record would have had, had the types been known. |
| RecordTags.ArrayTagsRead | Rtl/tags.sml:56-66 | An array's tag gives back its length in bytes; a word array has no pointers and a pointer array nothing else. |
| HeapGraph.TotalFits | Runtime/sparc/gc_semi.c:60-100 | Distinct objects of a space total no more than the words used in it: copying each once needs no more room than the space had in use. |
| HeapGraph.LiveExists | Runtime/sparc/gc_semi.c:40-143 | Liveness as the least set closed under roots and fields is well defined and lies within the objects of the space. |
| Copying.CopyFits | Runtime/sparc/gcinline.h:6-31 | At any moment of a collection there is room for one more object not yet copied: the unchecked copy is safe. |
| Copying.CopyStep | Runtime/sparc/forward.c:275-387 | Copying a white object that every closed set contains, with its forwarding pointer, keeps the collection invariant: replicas contiguous and apart, scanned fields images, nothing dead copied. |
| Copying.FieldStep | Runtime/sparc/gcinline.h:45-62 | Forwarding the next traced field of the replica being scanned keeps the invariant. |
| Copying.RootStep | Runtime/sparc/gcinline.h:45-62 | Forwarding a root location keeps the invariant, also when the location is a field in the space collected that a replica may already have copied. |
| Copying.CollectionDone | Runtime/sparc/gc_semi.c:72-110 | When every replica is black and every root forwarded, the copy is isomorphic to the live graph: the copied objects are exactly the live ones, each copied once, every pointer replaced by its target's replica. |
| Copying.PlaceIs | Runtime/sparc/gcinline.h:6-31 | Replicas lie one behind the other in the order in which their objects were reached, so that order determines the memory after the collection. |
| Copying.ReadyAgain | Runtime/sparc/gc_semi.c:110-143 | The space copied to is a well-formed heap, all of it is live, and nothing in it points back into the space collected. |
| Copying.LiveAgain | Runtime/sparc/gc_semi.c:40-143 | Reachability is carried over both ways: the live objects of the new heap are exactly the replicas. |
| Semi.Collector.AllocFromCopyRange | Runtime/sparc/gcinline.h:6-31 | An unchecked request always succeeds; a checked one fails exactly when it would reach the end of the copy region, and then changes nothing. |
| Semi.Collector.GenericAlloc | Runtime/sparc/forward.c:275-387 | Returns the object's one replica, copying the object if there is none, pushes a new replica if asked, and keeps the invariant; it fails only when the region cannot hold the object. |
| Semi.Collector.LocCopy | Runtime/sparc/gcinline.h:45-62 | A location is forwarded exactly when it points into the space collected, and the scan is one field, or the root set one location, further on. |
| Semi.Collector.GenericScan | Runtime/sparc/gcinline.h:466-757 | Scanning a gray replica of any type makes it black and returns the word after its last field. |
| Semi.Collector.ScanUntil | Runtime/sparc/gcinline.h:838-848 | The scan pointer meets the allocation cursor on an object boundary, with every replica black; objects have been reached breadth first. |
| Semi.Collector.ScanWork | Runtime/sparc/gc_semi.c:86-108 | Scanning from an explicit stack or queue ends with every replica black and the work set empty; objects have been reached in the order that a stack, or a queue, of gray objects gives. |
| Semi.Collector.StuckMeans | Runtime/sparc/forward.c:61-90 | A collection that dies does so only because it checks for space and the live objects fill toSpace. |
| Semi.Collector.CopyLive | Runtime/sparc/gc_semi.c:60-110 | Implicit, stack and queue order meet one specification: an isomorphic copy of exactly the live objects, with the cursor ahead by exactly their words, in the order of the traversal of the heap from roots and globals; the implicit order is that of a queue. |
| Semi.Collector.Collect | Runtime/sparc/gc_semi.c:40-143 | A whole collection completes exactly when it does not check for space, or nothing is live, or the live words are fewer than toSpace has; it then leaves an isomorphic copy, its objects in the order of the traversal, in a heap ready for the next collection, in which everything is live. |
| Survivors.EvacuatesCollectable | Runtime/sparc/gc_gen.c:86-96 | A minor collection whose root locations are the mutator's, or traced fields of either space, meets what the copying code needs. |
| Survivors.WholeAgain | Runtime/sparc/gc_gen.c:93-121 | After a minor collection the tenured space with the replicas is well formed and no field, root or global points into the nursery. |
| Survivors.ReachablePreserved | Runtime/sparc/gc_gen.c:93-121 | Every object reachable in the two spaces survives, and what is reachable afterwards is exactly what was, each object in its new place. |
| Survivors.EvacuationCarries | Runtime/sparc/gc_gen.c:93-121 | Tenured and copied objects move one-to-one, keep their tags and untraced fields, and their traced fields and the roots become images: the live graph is isomorphic to the old one. |
| Minor.Generational.AddGlobalRoot | Runtime/sparc/stack.c:663-682 | A global is promoted exactly when its value may move; a tag other than a one-word global's kills the collector. |
| Minor.GlobalTag | Runtime/sparc/sparc.h:788-793 | The tag by which the collector knows a one-word global is the one the compiler gives a record of one traced field. |
| Minor.Generational.EntryKinds | Runtime/sparc/forward.c:497-540 | Entries for each kind of array the compiler makes are legal, and just those of pointer and mirrored arrays can make roots; entries for records are not legal. |
| Minor.Generational.ProcessWritelist | Runtime/sparc/forward.c:497-540 | The write list is emptied, in its order, into exactly the globals whose values may move and exactly the fields of pointer and mirrored arrays that hold no tenured object; entries of word and quad arrays are skipped; it fails exactly on an entry of another kind. |
| Minor.Generational.SetsSuffice | Runtime/sparc/gc_gen.c:86-96 | If every pointer into the nursery is in a root, a global promoted or logged, a logged field or a back object, then after the write list is processed the work sets lead to all of them, and to nothing that is not a mutator's location or a traced field. |
| Minor.Generational.ScanPrimary | Runtime/sparc/gc_gen.c:100-104 | Scanning a back object forwards every traced field where it stands, first field first. |
| Minor.Generational.CopyYoung | Runtime/sparc/gc_gen.c:93-112 | Roots, back objects, globals and a scan of the words appended to the tenured space produce an isomorphic copy of the nursery objects reachable from them, in that order. |
| Minor.Generational.Collect | Runtime/sparc/gc_gen.c:48-172 | A major collection is asked for exactly when the tenured space could not take a full nursery or a thread requests it, and then nothing has changed; a minor one dies exactly on an illegal write-list entry, and otherwise carries the mutator's graph over, empties the nursery, leaves a heap in which nothing needs to be remembered, and adds to the globals kept for major collections exactly those promoted or logged whose values may move. |
| Minor.Generational.GlobalsKept | Runtime/sparc/stack.c:691-703 | If every global that may hold a heap object was promoted, logged or kept, it is kept after the collection, so that the next major collection forwards it. |
| ReplicatingBase.StepBase | Runtime/sparc/gc_semi_conc.c:408-564 | Every step of mutator or collector, in any interleaving, keeps shapes, tag words (the stall tag just while an array is scanned), backpointers (there just until the scan's first store), write lists and what replays have read consistent. |
| ReplicatingBase.FetchMoves | Runtime/sparc/gc_semi_conc.c:528-557 | The switch on the tag a replay has read comes to its last case, where the collector dies, exactly for the stall tag. |
| ReplicatingAgree.FieldExact | Runtime/sparc/gcinline.h:616-671 | A replica's field disagrees with its primary's after a step if and only if the step spoils it, or it did before and the step neither writes the primary's field nor finds it pointing at its own array. |
| ReplicatingAgree.AgreementExact | Runtime/sparc/gc_semi_conc.c:472-557 | While all fields agree, they go on agreeing if and only if the step is not a replay's last due store or drop that leaves another word in the field. |
| ReplicatingAgree.DropSpoils | Runtime/sparc/gc_semi_conc.c:511-517 | A replay that finds the backpointer and drops a write leaves its field wrong if and only if the write was to field 0, a scan has loaded another word from there, and no other replay is due. |
| ReplicatingSnapshot.SnapshotExact | Runtime/sparc/gc_semi_conc.c:488-517 | The snapshot stays guarded if and only if the step does not let go, unreplicated, a pointer that nothing else guards: by dropping or merely copying a first write, or by overwriting a pointer the scan has yet to look at. |
| ReplicatingSnapshot.EdgeExact | Runtime/sparc/gc_semi_conc.c:488-517 | A snapshot edge is unguarded after a step if and only if the step lets its pointer go with nothing else guarding it, or it was unguarded and the step does not guard it anew. |
| ReplicatingProof.StepInv | Runtime/sparc/gc_semi_conc.c:408-564 | A step keeps the invariant if and only if it neither loses a snapshot pointer nor spoils a field. |
| ReplicatingProof.FlipIsSafe | Runtime/sparc/gc_semi_conc.c:332-379 | At a quiescent point of a run that kept the invariant every live primary, and every root, has a replica that agrees with it field by field, as the flip assumes. |
| ReplicatingProof.CarefulRunFlips | Runtime/sparc/gc_semi_conc.c:135-152 | Over every interleaving of mutators' reads, writes and allocations with the single loads and stores of replays and scans that has no step of those kinds, a quiescent state may be flipped. |
| ReplicatingRuns.FlipByRoots | Runtime/sparc/gc_semi_conc.c:332-379 | What an agreeing replica points at is replicated too, so that at a quiescent point the flip is safe exactly when the objects in roots are replicated and no live field is spoilt. |
| ReplicatingRuns.RunSpoilt | Runtime/sparc/gc_semi_conc.c:408-564 | A field is wrong at the end of any run if and only if some step spoilt it and no later step wrote it or found the array pointing at itself there. |
| ReplicatingRuns.RunOpen | Runtime/sparc/gc_semi_conc.c:408-564 | A snapshot edge is unguarded at the end of any run if and only if some step let its pointer go with nothing else guarding it, and no later step replicated the target, took up a pointer to it or logged the field's first write. |
| ReplicatingRuns.SnapshotMadeExactly | Runtime/sparc/gc_semi_conc.c:408-564 | At a quiescent end of any run everything live in the snapshot has a replica if and only if the run left none of its live edges open. |
| ReplicatingRuns.MissedBehindOpen | Runtime/sparc/gc_semi_conc.c:408-564 | The target of an edge left open never got a replica, and whatever live object of the snapshot never did lies behind such an edge. |
| ReplicatingRuns.RunFlipsExactly | Runtime/sparc/gc_semi_conc.c:332-379 | At a quiescent end of any run the collector may flip if and only if some step made a replica of each object in a root, and no field of a live object was spoilt by a step after which none healed it. |
| ReplicatingRuns.GuardedRunFlipsExactly | Runtime/sparc/gc_semi_conc.c:332-379 | If no live edge of the snapshot was left open, it may flip if and only if no field of a live object was left wrong. |
| ReplicatingOrderly.OrderlyRunFlips | Runtime/sparc/gc_semi_conc.c:408-564 | Any interleaving may be flipped at a quiescent end in which no array is written while its replica is gray or under scan, no field while an earlier write to it awaits its replay, and no array gets its replica while a write to it does. |
| ReplicatingProof.TagReadExact | Runtime/sparc/gc_semi_conc.c:512-514 | In every reachable state the tag a replay reads is the stall tag if and only if the array is being scanned. |
| ReplicatingProof.ReplayDiesExactly | Runtime/sparc/gc_semi_conc.c:511-557 | In every reachable state a replay about to read the tag dies, if it is not interrupted, if and only if its array is being scanned and no longer points back. |
| ReplicatingProof.NoReplayDies | Runtime/sparc/gc_semi_conc.c:511-557 | In a run in which no replay reads the tag of an array under scan, none dies. |
| ReplicatingProof.DeathExactly | Runtime/sparc/gc_semi_conc.c:511-557 | Over every run a replay is dead if and only if its array was under scan when it read the tag, the backpointer was gone when it tested, and it went on to fetch. |
| ReplicatingProgress.AllFall | Runtime/sparc/gc_semi_conc.c:408-564 | Every step of a scan, a replay, a release or a root leaves less to do, so that without mutators collection ends. |
| ReplicatingProgress.QuiesceExactly | Runtime/sparc/gc_semi_conc.c:135-152 | After any run the collector can still be brought, by steps of its own, to where it may be switched off, if and only if no replay is dead or holds the stall tag of an array that no longer points back. |
| ReplicatingFailures.PointerLost | Runtime/sparc/gc_semi_conc.c:488-517 | A concrete run of one processor after which the flip would leave a live object unreplicated. |
| ReplicatingFailures.DroppedWrite | Runtime/sparc/gcinline.h:639-671 | A concrete run in which a scan has loaded a field, the field is written and the write dropped, and the scan then stores the old word: the replica ends with a value its array has lost. |
| ReplicatingFailures.StaleStore | Runtime/sparc/gc_semi_conc.c:529-557 | A concrete run of two processors after which a replica holds a value its array has lost. |
| ReplicatingFailures.ReplayDies | Runtime/sparc/gc_semi_conc.c:511-557 | A concrete run in which a replay meets the stall tag of a small array and dies. |
| Rooms.StepInv | Runtime/sparc/rooms.c:75-121 | Every step of every process keeps the room invariant: tickets distinct, counters ordered, one process in control at a time. |
| Rooms.GrantedAreHolders | Runtime/sparc/rooms.c:92-121 | Opening a room lets in exactly the holders of the tickets it covers. |
| Rooms.RunWaits | Runtime/sparc/rooms.c:75-121 | Over every schedule, openings of other rooms before a waiting process's own are bounded by how far away its room is. |
| Rooms.RoomsAreSafe | Runtime/sparc/rooms.c:75-121 | In every state of every schedule: all processes inside are in the chosen room; prev, cur and wait are ordered in every room; the finalizer runs alone and once per opening; a process waits through fewer openings of other rooms than there are rooms. |
| Rooms.WaitIsBounded | Runtime/sparc/rooms.c:75-121 | However long a process waits, and however all are scheduled, other rooms than its own are opened fewer times than there are rooms. |
| Rooms.FinalizedOnce | Runtime/sparc/rooms.c:92-121 | Over every schedule the finalizer runs once for each time processes are let in, but for the last time perhaps not yet. |
| Rooms.CanEnter | Runtime/sparc/rooms.c:75-121 | In every reachable state a process that waits can be brought into its room without anybody else's entering anew. |
| Rooms.CanLeave | Runtime/sparc/rooms.c:75-121 | In every reachable state all processes, waiting or inside, can be brought out again: no run ends in a deadlock. |
| Barriers.StepInv | Runtime/sparc/barriers.c:25-72 | Every step keeps the barrier invariant if three successive strong barriers span fewer positions than there are counters. |
| Barriers.SpinSees | Runtime/sparc/barriers.c:43-52 | A processor that sees a strong barrier's counter full finds it exactly full, and all have arrived: the assertion behind the spin holds. |
| Barriers.BarriersAreSafe | Runtime/sparc/barriers.c:25-72 | In every state of every schedule nobody leaves a strong barrier before all have arrived, a counter is full while anyone has yet to leave, it counts the arrivals of its present use, and places at a barrier differ. |
| Barriers.ThreeSuffice | Runtime/sparc/barriers.c:25-58 | Three counters are enough when every barrier is strong. |
| Barriers.LateClearing | Runtime/sparc/barriers.c:53-57 | Two processors, three counters and a weak barrier before two strong ones: late clearing gives both the same place, and neither can go on. |
| BarriersConverse.UnspacedMiscounts | Runtime/sparc/barriers.c:25-72 | For two processors or more and any sequence whose strong barriers are not close enough together there is a schedule after which an arrival fetches a wrong count. |
| BarriersConverse.SafeExactly | Runtime/sparc/barriers.c:25-72 | For two processors or more, every schedule keeps all the promises of barriers if and only if behind every strong barrier, and behind the start, two more strong ones come within a round of the counters. |
| BarriersConverse.CollectorsSpaced | Runtime/sparc/gc_semi_para.c:63-163 | Sequences in which every weak barrier is followed by a strong one, with five counters or more, such as each collector's, meet that condition. |
| BarriersProgress.RunsCanPass | Runtime/sparc/barriers.c:25-72 | With strong barriers close enough together, every run can be gone on with so that all processors pass as many barriers as one likes: nobody is ever stuck. |
| SharedStack.PopStepInv | Runtime/sparc/gc_para.c:64-96 | Every step of a session of pops keeps the ranges taken disjoint and inside the stack, also when the shared end is overreached. |
| SharedStack.PopsAreDisjoint | Runtime/sparc/gc_para.c:64-96 | After any schedule of pops each item is still on the stack or was taken by exactly one processor, whether requests were met wholly, partly or not at all. |
| SharedStack.PopsAreServed | Runtime/sparc/gc_para.c:64-96 | After any schedule of pops what is left is the size less all that was asked for, or nothing; and each processor has as many items as it asked for, but for those that reached the bottom or found nothing. |
| SharedStack.PopTurns | Runtime/sparc/gc_para.c:64-96 | In every schedule a processor is through with its pop exactly when it has had two turns. |
| SharedStack.PushStepInv | Runtime/sparc/gc_para.c:47-62 | Every step of a session of pushes keeps what has been copied in its own place. |
| SharedStack.PushesLoseNothing | Runtime/sparc/gc_para.c:47-62 | After any schedule of pushes the stack holds what it held and, behind it, every processor's items, together and in order, and its end is below the limit. |
| SharedStack.PushTurns | Runtime/sparc/gc_para.c:47-62 | If there is room for all, a processor is through with its push exactly when it has had one turn and one for each item. |
| Termination.StepInv | Runtime/sparc/gc_para.c:134-255 | Every step of the collection loop keeps the count of processors that hold shared work right. |
| Termination.FoundAllEmpty | Runtime/sparc/gc_para.c:9-28 | When the last processor to leave the push room finds the stack empty and nobody counted, there is no work anywhere. |
| Termination.StopsOnlyWhenDone | Runtime/sparc/gc_semi_para.c:72-145 | In every run, a processor is told that all is empty only when the shared stack and every processor's own work are empty, and they stay empty. |
| Termination.RunTellsExactly | Runtime/sparc/gc_para.c:230-255 | In every run, a processor in the loop that leaves the push room is told that all is empty if and only if there is no work anywhere and nobody else is in that room; the answer to the push before the loop is not looked at. |
| Termination.RunsCanFinish | Runtime/sparc/gc_semi_para.c:95-145 | However a collection has gone so far, its processors can go on, work making no new items, so that each of them is told and leaves the loop. |
| Termination.NothingLost | Runtime/sparc/gc_para.c:134-255 | Every step but work itself keeps the multiset of items over the shared stack and all processors. |
| Ownership.StepInv | Runtime/sparc/forward.c:210-266 | Every step of any number of racing copiers keeps the ownership invariant. |
| Ownership.TagGoesOn | Runtime/sparc/forward.c:274-346 | An object's tag goes from the original to the stall tag to a forwarding pointer and no further, and a replica is added only when there was none. |
| Ownership.OneCopy | Runtime/sparc/forward.c:210-346 | Over every schedule at most one replica is made, all copiers return it with its fields and tag written, and the branch for unexpected tags is never taken. |
| Ownership.ComesNearer | Runtime/sparc/forward.c:210-346 | A copier waits only while another owns the object; every other step of its own brings it nearer to returning. |
| Ownership.CanReturn | Runtime/sparc/forward.c:210-346 | From every reachable state the copiers can go on so that all return. |
| Liveness.SummaryIsTransfer | Backend/bblock.sml:82-117 | A block's use and def sets say the same as its instructions' transfer functions one by one. |
| Liveness.BeforeAllIs | Backend/bblock.sml:208-249 | A register is live before a block's instructions if and only if one uses it before any defines it, or none defines it and it is live behind them. |
| Liveness.SummaryExact | Backend/bblock.sml:82-117 | The use set holds exactly the registers an instruction uses before any defines them, the def set exactly the others that some instruction defines; fixed-role registers are in neither. |
| Liveness.AnnotationIs | Backend/bblock.sml:208-249 | The live set attached to each instruction is what the instructions behind it and the block's exit need. |
| Liveness.RevDFS | Backend/bblock.sml:138-154 | The visiting order contains every label of the work list, and only labels of the procedure. |
| Liveness.RevDFSOnce | Backend/bblock.sml:138-154 | What has been seen stays behind what is found later, and no label comes twice. |
| Liveness.Analysis.ReverseStep | Backend/bblock.sml:156-183 | Recomputing a block reports exactly whether its live-in set stayed, and leaves it satisfying its equations if so. |
| Liveness.Analysis.FindLiveTemps | Backend/bblock.sml:122-202 | The iteration terminates with every block's equations satisfied, below every other solution. |
| Liveness.LiveInIsPathLiveness | Backend/bblock.sml:122-202 | The result is path liveness over the procedure's instructions: a register is live into a block exactly when an instruction that uses it can be reached along a path without instructions that define it. |
| Liveness.LiveInIsTransfer | Backend/bblock.sml:208-249 | Live-in sets of blocks and annotations of instructions agree. |
| Ifgraph.Graph.InsertNode | Backend/ifgraph.sml:69-75 | A pseudo-register becomes a node, keeping the edges it had; a physical one does not. |
| Ifgraph.Graph.InsertEdges | Backend/ifgraph.sml:124-147 | Exactly the pairs of different registers of one kind from list and set are joined, both ways. |
| Ifgraph.Graph.DeleteNode | Backend/ifgraph.sml:77-95 | A node leaves the graph and every neighbour's set, and nothing else changes. |
| Ifgraph.Graph.Copy | Backend/ifgraph.sml:96-105 | The copy is a graph of its own with the same edges. |
| Ifgraph.ProcessInstr | Backend/chaitin.sml:475-508 | An instruction adds exactly the edges between what it defines or destroys and what is live after it. |
| Ifgraph.BuildGraph | Backend/chaitin.sml:468-536 | The graph of a procedure holds exactly the pseudo-registers defined or live behind an instruction, and exactly the edges its instructions ask for, and is symmetric. |
| Color.BestRegIsRegister | Backend/color1.sml:121-145 | The search for a register keeps the pseudo-register itself exactly when no register beats its bias; nothing beats what it ends in: the greatest bias, and the lowest number among equals. |
| Color.PlaceFits | Backend/color1.sml:115-189 | A node goes to its slot exactly when it has more than 128 neighbours or they have all the registers; otherwise to the register of the right file it prefers among those no neighbour has. |
| Color.SelectProper | Backend/color1.sml:115-189 | Selecting places in stack order maps every node of the stack, and neighbours never share. |
| Color.SelectForced | Backend/color1.sml:115-189 | Later places do not change earlier ones: whatever is on the stack at the end still has more than 128 neighbours, or they have all the registers. |
| Color.LowDegreeChosen | Backend/color1.sml:147-175 | A node of low degree with at most 128 neighbours finds a register, as long as only nodes left at its removal were given registers before. |
| Color.SelectNoSpill | Backend/color1.sml:115-189 | A node removed as low-degree with at most 128 neighbours in the full graph is not spilled. |
| Color.Sort | Backend/color1.sml:76-92 | The nodes removed in a round are exactly those of fewer neighbours than registers and those of more than four times as many. |
| Color.Simplify | Backend/color1.sml:73-109 | Simplification terminates, and the rounds it goes through are exactly these: each removes the low-degree and the crowded nodes of what is left, the crowded ones on top, or when there are none any one node, and puts them on the stack. |
| Color.RoundsRemove | Backend/color1.sml:73-109 | However many rounds there are, the stack holds each removed node once, and every node removed as low-degree lies behind nodes that were left when it went. |
| Color.LowsExact | Backend/color1.sml:76-92 | The nodes recorded as low-degree are exactly those that some round removed when they had fewer neighbours left than there are registers. |
| Color.SmallIsLow | Backend/color1.sml:76-92 | A node with fewer neighbours than registers is removed as low-degree, in whichever round. |
| Color.SparseIsLow | Backend/color1.sml:76-92 | If whatever nodes are left include one of low degree, and none is crowded, every node is removed as low-degree. |
| Color.ColorGraph | Backend/color1.sml:39-201 | Every node is mapped; neighbours, physical ones included, never share a place; registers match kinds; a node is on the stack if and only if it must live there, or has more than 128 neighbours, or they have all the registers; a node removed as low-degree in any round, with at most 128 neighbours in the full graph, is not spilled; and in a sparse graph nothing is. |
| Allocate.AllocSucceeds | Backend/chaitin.sml:601-645 | An instruction's operands get registers exactly when all are mapped and no more are spilled of each kind than there are temporaries. |
| Allocate.RewriteSucceeds | Backend/chaitin.sml:833-878 | A block is rewritten exactly when each of its instructions can be. |
| Allocate.AllocGives | Backend/chaitin.sml:601-645 | Registers standing for operands match kinds, differ for different spilled operands, and are the operands' own registers when they have any. |
| Allocate.CodeSize | Backend/chaitin.sml:601-878 | The code is one step for each instruction and one for each spilled operand; moves between slots take two, and moves of a register to itself are gone if they are to go. |
| Preserve.PopExact | Sparc/sparc.sml:795-815 | A load delivers the slot's value exactly when it is not a far floating-point slot, or the register holds the value by chance. |
| Preserve.LoadsGive | Backend/chaitin.sml:616-645 | After the loads before an instruction, the register standing for each operand holds its value. |
| Preserve.StoresGive | Backend/chaitin.sml:616-645 | After the stores behind an instruction, a spilled result is in its slot. |
| Preserve.OpAgrees | Backend/chaitin.sml:650-832 | A rewritten instruction leaves every register live after it with the value the original gives it, in its place. |
| Preserve.MoveExact | Backend/chaitin.sml:787-830 | A rewritten move, in all combinations of registers and slots, delivers the value if and only if no far floating-point slot spoils it. |
| Preserve.FarFloatFails | Sparc/sparc.sml:795-836 | For every register spilled to a far floating-point slot there is a state in which moving it to a register goes wrong. |
| Preserve.InstrAgrees | Backend/chaitin.sml:650-832 | One instruction, move or not, agrees with its rewriting on every live register. |
| Preserve.BlockAgrees | Backend/chaitin.sml:833-878 | A rewritten block agrees with the original on what is live at its end. |
| Preserve.RunsAgree | Backend/chaitin.sml:547-878 | After any number of blocks the rewritten procedure is at the same block, in the same world, with every live register's value in its place. |
| Procedure.JoinedApart | Backend/chaitin.sml:468-536 | Registers joined in the graph end up in different places. |
| Procedure.ColoredAllocates | Backend/chaitin.sml:1076-1180 | Liveness, the graph built from it and any proper colouring of that graph give a rewriting to which RunsAgree applies. |
| Procedure.OneLiveness | Backend/bblock.sml:122-202 | The liveness of a procedure is determined by its blocks, so that the graph and all said about it are too. |
| Procedure.SparseExpressible | Backend/chaitin.sml:601-645 | In a graph that is sparse but for registers that must live on the stack, an instruction can be rewritten exactly when it names registers of the graph and no more of those than there are temporaries. |
| Procedure.AllocateProcedure | Backend/chaitin.sml:1076-1180 | The whole allocator colours the interference graph of the procedure's liveness with the machine's registers, as ColorGraph promises, and returns a rewriting to which RunsAgree applies if and only if each register that is to live on the stack is in the graph and every instruction has temporaries enough; in a sparse graph, if and only if it has enough for those registers. |
| Packing.DigitOfPack | Backend/tracetable.sml:100-118 | A packed field reads back as it was, and fields past the last read as zero. |
| Packing.LayoutGives | Backend/tracetable.sml:106-118 | Fields laid out word by word, a fixed number to a word, can all be read back by position. |
| TraceTable.LookupFirst | Backend/tracetable.sml:383-410 | The trace of a slot or register is that of the first entry for it, or none. |
| TraceTable.PathFields | Backend/tracetable.sml:229-257 | The five-bit fields of a packed path hold its indices raised by one, up to the zero that ends it. |
| TraceTable.PathRoundTrip | Backend/tracetable.sml:229-257 | A path decodes to itself, taking all its words, if and only if it has at most five indices or their number plus one is a multiple of six. |
| TraceTable.SixIndices | Backend/tracetable.sml:236-257 | A path of six indices that reads back as its first index alone. |
| TraceTable.FirstSpecial | Backend/tracetable.sml:259-279 | The first word of a special trace keeps its kind in the top bits and the first path fields below. |
| TraceTable.Encoder.AddSpecial | Backend/tracetable.sml:271-279 | A special trace is added exactly when all its indices are in range. |
| TraceTable.Encoder.TraceBot | Backend/tracetable.sml:281-299 | A slot's bits, bytes and words are added in step, or an error is reported. |
| TraceTable.Encoder.StackLoop | Backend/tracetable.sml:383-392 | The slots of the frame are laid out in order with their special data, or an error is reported exactly when one cannot be encoded. |
| TraceTable.Encoder.RegLoop | Backend/tracetable.sml:393-410 | The two register masks are built bit by bit with the special words of registers behind those of slots. |
| TraceTable.Encoder.DoCallinfo | Backend/tracetable.sml:338-505 | An entry is produced exactly when sizes, offsets and traces fit their fields, and consists of the sections the decoder expects. |
| TraceDecode.StackWordsExact | Runtime/sparc/stack.c:168-172 | Encoder and decoder agree on the number of words of stack bits if and only if the frame's words are positive and 0 or at least 4 modulo 16. |
| TraceDecode.OneWordFrame | Runtime/sparc/stack.c:168-172 | A frame of one word: one word of bits written, none read. |
| TraceDecode.RetAddExact | Runtime/sparc/stack.c:155-166 | The decoder finds the return address if and only if its offset is below 124; the mark it tests for is never written. |
| TraceDecode.SizesRead | Runtime/sparc/stack.c:88-104 | The sizes in an entry's header are its own size in words, its frame's and its byte section's. |
| TraceDecode.Sections | Backend/tracetable.sml:430-465 | Masks, stack bits, bytes and words follow one another in the entry, each complete. |
| TraceDecode.FormatIs | Backend/tracetable.sml:259-299 | The format in numbers: label, sizes and return-address offset in the first three words, two mask bits for each register and two bits for each slot, with the value for each kind of trace. |
| TraceDecode.BotAt | Runtime/sparc/stack.c:39-46 | Reading a slot's two bits from the table gives what the encoder meant for that slot, and untraced past the frame. |
| TraceDecode.ByteIs | Runtime/sparc/stack.c:47-52 | The bytes of callee-save slots are found in order, high byte first. |
| TraceDecode.WordIs | Runtime/sparc/stack.c:53-68 | The words of special traces are found in order. |
| TraceDecode.WalkTable | Runtime/sparc/stack.c:77-104 | Walking a table by entry sizes comes to every entry in order and stops behind the last. |
| StackScan.Cursor.GetCursor | Runtime/sparc/stack.c:145-177 | Turning the cursor to an entry decodes it and forgets the slot cache, or keeps the decoding and the cache when it is the entry used last. |
| StackScan.Cursor.CacheCursor | Runtime/sparc/stack.c:179-203 | The cache lists exactly the slots with a trace, in order, from the third use on if there are fewer than ten, and otherwise never. |
| StackScan.Cursor.PathProjectStep | Runtime/sparc/stack.c:205-224 | One word of a path is followed through memory index by index, and stops exactly if the path ends in it. |
| StackScan.Cursor.PathProject | Runtime/sparc/stack.c:226-235 | Following a path's words through memory reaches what the path denotes, and consumes exactly its words. |
| StackScan.Cursor.ShouldTraceSpecial | Runtime/sparc/stack.c:237-262 | A special value is traced exactly when the type found from its base along its path says so. |
| StackScan.Cursor.ShouldTrace | Runtime/sparc/stack.c:264-281 | Decoding one slot gives the denotation of its trace, and moves past exactly its special data. |
| StackScan.Cursor.CachedWalk | Runtime/sparc/stack.c:345-362 | The walk over cached slots finds exactly the frame's roots. |
| StackScan.Cursor.ChunkWalk | Runtime/sparc/stack.c:363-387 | The walk over all slots, skipping untraced groups of four, finds the same roots as the cached walk. |
| StackScan.Cursor.RegWalk | Runtime/sparc/stack.c:388-411 | The registers that hold pointers after the frame are those the entry says, callee-save ones through the state before. |
| StackScan.Cursor.ScanFrame | Runtime/sparc/stack.c:321-411 | A frame's roots and the register state after it are the same whether or not the entry was cached. |
| StackScan.Cursor.UpTrace | Runtime/sparc/stack.c:283-319 | The call sites of a stack's frames are found from the newest up. |
| StackScan.Cursor.DownTrace | Runtime/sparc/stack.c:321-411 | Register state is threaded through the frames from the oldest down, and the roots are those of all frames in order. |
| StackScan.Cursor.ScanStack | Runtime/sparc/stack.c:283-411 | Scanning a whole stack finds exactly the roots and the final register state the compiler's traces denote. |
| Unify.OccursIsVar | Bench/leroy.sml:144-149 | The occurs check holds exactly of the variables of a term. |
| Unify.CompSubstIsComposition | Bench/leroy.sml:141-142 | Composition of binding lists is composition of substitutions. |
| Unify.SolvedIsIdempotent | Bench/leroy.sml:105-112 | A substitution whose bindings avoid its domain does nothing the second time. |
| Unify.UnifySound | Bench/leroy.sml:151-163 | The substitution returned unifies the two terms. |
| Unify.UnifyMostGeneral | Bench/leroy.sml:151-163 | When the terms have a unifier, unify succeeds with a substitution of which it is an instance. |
| Unify.UnifyCorrect | Bench/leroy.sml:151-163 | unify terminates on all pairs; it fails exactly when there is no unifier, and otherwise returns an idempotent most general one over the terms' own variables. |
| Unify.MatchingCorrect | Bench/leroy.sml:126-139 | matching succeeds exactly when the second term is an instance of the first, with the one substitution of the first term's variables that makes it so. |
| Hash.DeltaOdd | Runtime/sparc/hash.c:52-60 | The probe step is odd for every table size above one. |
| Hash.ProbesDiffer | Runtime/sparc/hash.c:52-84 | Within one round no slot is looked at twice. |
| Hash.ProbesCover | Runtime/sparc/hash.c:52-84 | In one round every slot is looked at. |
| Hash.LogAbove | Runtime/sparc/hash.c:9-20 | The table size is the first power of two above the size asked for, whatever that is. |
| Hash.InsertRefines | Runtime/sparc/hash.c:38-49 | Filling the slot where the search for a new key ends adds that key to the map and disturbs no other key's search. |
| Hash.HashTable.Lookup | Runtime/sparc/hash.c:52-84 | Lookup terminates, finds a key exactly when the map has it, and fails, or finds the slot for insertion, exactly as the table has a free slot or not. |
| Hash.HashTable.Insert | Runtime/sparc/hash.c:38-49 | Inserting a new key extends the map by it; an old key or a full table leaves everything as it was. |
| Calendar.YearLength | Basis/date.sml:94-100 | A year has 366 days exactly in leap years. |
| Calendar.FebruaryIsLeap | Basis/date.sml:85-92 | February is long exactly in leap years. |
| Calendar.MonthLengths | Basis/date.sml:85-92 | Four months have 30 days, February 29 or 28, and the others 31. |
| Calendar.Monotone | Basis/date.sml:94-100 | Day numbers are ordered exactly as dates are. |
| Calendar.CountYearsFinds | Basis/date.sml:79-110 | Counting years from the approximation ends, in the year that holds the day. |
| Calendar.CountMonthsFinds | Basis/date.sml:79-110 | Counting months ends in the month that holds the day. |
| Calendar.AbsoluteOfFrom | Basis/date.sml:94-110 | Every day number from one on is the number of the valid date found for it. |
| Calendar.FromOfAbsolute | Basis/date.sml:94-110 | Every valid date is the one found for its number. |
| Calendar.FromMonotone | Basis/date.sml:102-110 | Larger day numbers have later dates. |
| Bitmap.Bitmap.GetBit | Runtime/sparc/bitmap.c:32-38 | A bit read from the packed words is the membership of its number in the set. |
| Bitmap.Bitmap.SetBit | Runtime/sparc/bitmap.c:40-47 | Setting a bit in its packed word adds its number to the set and no other. |
| Bitmap.Bitmap.ClearBitmap | Runtime/sparc/bitmap.c:57-68 | Clearing empties the set. |
| Bitmap.Bitmap.SetBitmapRange | Runtime/sparc/bitmap.c:88-101 | A run is added to the set, with the count of bits in use kept right although some were set before. |
| Bitmap.Bitmap.AllocBitmapRange | Runtime/sparc/bitmap.c:103-139 | The next-fit search terminates and fails exactly when there is no free run of the length; otherwise it sets the first free run that begins, going round the map, from where the last one ended, and the count stays the number of bits set. |
| LargeSpace.FloatArrayRequest | Runtime/sparc/gc_gen_conc.c:157-185 | A floating-point array with any number of segments asks for an odd or even word so that its first element is on an even one. |
| LargeSpace.NeededLeast | Runtime/sparc/gc_large.c:18-23 | An allocation takes the fewest chunks of 512 bytes that hold the object, and four bytes more if an alignment is asked for. |
| LargeSpace.RequestFits | Runtime/sparc/gc_large.c:14-34 | Chunks begin on even words, so that just odd requests are shifted; the chunks taken cover the object's bytes, and an object such as the allocators ask for does not end a chunk one word late. |
| LargeSpace.MarkExact | Runtime/sparc/gc_large.c:41-52 | The chunks marked are all those the object's bytes lie in if and only if it is not a shifted object whose length fills chunks exactly. |
| LargeSpace.BytesApart | Runtime/sparc/gc_large.c:14-58 | Objects whose runs of chunks are apart and cover them share no byte, and lie within the space. |
| LargeSpace.NewChunks | Runtime/sparc/gc_large.c:14-34 | A run of free chunks is apart from the runs of every object there is. |
| LargeSpace.Space.Alloc | Runtime/sparc/gc_large.c:14-34 | A new object gets a run of its own with room for its alignment, or nothing exactly when no run is long enough; the space stays sound. |
| LargeSpace.Space.AddRoot | Runtime/sparc/gc_large.c:41-52 | Marking an object adds its marks, and nothing is missing when its first chunk was marked already. |
| LargeSpace.Space.Collect | Runtime/sparc/gc_large.c:36-58 | Afterwards the objects are exactly the roots and the bits in use exactly their marks; these cover every byte of every object always if all objects are such as the allocators ask for, and for other lengths exactly when no live object is shifted and fills chunks exactly. |
| Windows.CappingIsHarmless | Runtime/sparc/stats.c:402-430 | Cutting one addition short at the largest window leaves every window as it would be. |
| Windows.WindowQuotient.constructor | Runtime/sparc/stats.c:300-351 | Coarse and fine windows have the sizes, the granularity and the buffer of twice the largest that the two settings call for, and nothing recorded. |
| Windows.WindowQuotient.SlideWindow | Runtime/sparc/stats.c:367-400 | A window is brought up to date by first filling it and then moving it tick by tick over the ring. |
| Windows.WindowQuotient.Add | Runtime/sparc/stats.c:402-465 | An addition of any length of time keeps every window's sums right, and carries the part of a tick left over. |
| Windows.WindowsAreSums | Runtime/sparc/stats.c:402-465 | At any time a window's on sum is the number of on ticks among the last ones of all there have been, and its off sum the rest. |

## Left out

- Semi.Collector.AllocFromCopyRange: requests carry no alignment, and the slow path never finds a new page, because the copy region is the whole heap.
- Semi.Collector.GenericAlloc: records, word arrays and pointer arrays; not quad, mirrored or segmented arrays.
- Semi.Collector.GenericScan: the same objects, and no skip tags.
- Semi.Collector.CopyLive: implicit, stack and queue order; not hybrid order, nor the page-wise space check.
- Semi.Collector.Collect: likewise, and spaces come with their sizes: resizing, the floating-point policy behind it and work weights are not modelled.
- The spaces of a collector may not touch, since the range test includes the word after a space.
- Minor.Generational.AddGlobalRoot: one-word globals; mirrored ones belong to the concurrent collectors.
- Minor.Generational.ScanPrimary: back objects are records, word arrays and pointer arrays.
- Minor.Generational.Collect: the minor branch, and of the threads' requests the one for a major collection; the major branch with its three spaces and `gc_gen_conc.c` are not modelled.
- Allocation of big arrays other than in the large-object space.
- In the replicating collector: segmented, mirrored and quad arrays; globals initialised during a collection; and the ownership protocol, which `Ownership` models by itself, so that making a replica is one step. A mutator's write and its log entry are one step. A gray replica is scanned by one processor, which is what `SharedStack` gives, and a word array is copied in order.
- ReplicatingProof.CarefulRunFlips: covers runs without the steps that StepInv names, because with one the flip can fail; ReplicatingRuns.RunFlipsExactly covers all runs.
- All protocols assume sequentially consistent memory, one access a step; it is proved that every run can be brought to its end, not that every fair schedule comes to it.
- BarriersConverse.SafeExactly: two processors or more; for one the condition is only sufficient.
- Rooms: changeRoom and the logger.
- Termination: that a pop and a push do not overlap is taken from Rooms and not derived from its state machine; the stack as one set of items a processor can pop any part of, and one conditional push as a push.
- Liveness.SummaryIsTransfer: without type dependencies of registers (`compute_map`).
- Liveness.AnnotationIs: without type dependencies of registers.
- Liveness.LiveInIsTransfer: without type dependencies of registers.
- Procedure.AllocateProcedure: the entry block is not the target of a branch, because its live-in set is not computed; instructions do not mention the allocator's own temporaries; expansion of calls, returns, callee-save code, preambles and stack fixups, and what single machine instructions do, are left to parameters or out.
- The slot allocator: that interfering registers get different slots is assumed of it.
- Preserve.RunsAgree: slots of spilled floating-point registers are within reach of a displacement, because otherwise the value is lost; FarFloatFails shows that the condition is needed.
- Trace tables: traces that are unset or impossible, entry numbers kept for debugging, and the search for an entry by return address, which is a given map.
- StackScan.Cursor.GetCursor: entries that read back, that is with return-address offsets below 124, frame sizes both sides agree on and paths that decode to themselves; the exact conditions are PathRoundTrip, StackWordsExact and RetAddExact.
- LargeSpace.Space.Alloc: the skip words and padding it writes; only where the object's bytes lie is modelled.
- The display of statistics and the fraction of a window (`get_prewindow`, `add_statistic`).
- Locks around the bitmap. The largest key of the hash table marks free slots and cannot be stored.
- Week day and day of the year, and the rest of the date library.
- Benchmarks other than unification; in that one, the completion procedure built on it.
