# ARTS in Dafny

A model of the core of the ARTS task runtime and proofs of what it promises. ARTS runs event-driven
tasks (EDTs) on many nodes. EDTs, datablocks and events are named by GUIDs, and a GUID may be known,
signalled and given metadata before the object behind it exists. Most of the project is about that
rendezvous and about what happens around it: a task is started exactly once, nothing that was
deferred is lost or done twice, and every lock word, counter and reference balances.

Code that interleaves is modelled as a step machine: a state, a deterministic step per thread, and a
schedule that picks who moves. A step makes one shared-memory access, and the main results hold for
every schedule. Code that updates things in place by one thread is a class or a method with loops.

| file | what it models |
|---|---|
| OoLock.dfy, OoList.dfy | the out-of-order (OO) list: its two lock words, its chunked array, adders, fires, resets |
| EdtReadiness.dfy | creating an EDT under a known GUID while its slots are signalled and given metadata |
| Acquire.dfy | the second phase of readiness: acquiring the datablocks |
| Release.dfy | releasing them, in the middle of an EDT and at its end |
| RouteTable.dfy, RouteRace.dfy | the route table as a map, and racing reservations and additions |
| GuidLayout.dfy, Guid.dfy | the GUID word, key generation, the choice of table |
| EdtPool.dfy | the per-thread pools of EDT memory |
| Timer.dfy, EpochMerge.dfy, CaptureHistory.dfy, ObjectTable.dfy | counters |
| Bfs.dfy, TriangleCount.dfy | two example programs |
| Common.dfy | options, words and powers of two |

Atomic operations are taken to be sequentially consistent. Frontier progress, remote requests, frees
and reference returns are logged as actions. Integers are unbounded except where a width is written
out. `strtoull` is a parameter of the parser, with a model of its own; the hash of the object table is a parameter with values
below the table size.

## What turned out not to hold

- A fire gives up after 1000 failed attempts. `EdtReadiness.SignalCanBeLost` is a run in which it
  then leaves a parked signal behind and the EDT never becomes ready, and
  `EdtReadiness.MetadataCanBeLost` one in which the EDT runs with the wrong mode.
  `EdtReadiness.ReadyIffAtGiveUp` and `EdtReadiness.MetadataIsInPlace` say exactly when, by the state
  at the moment the fire gives up.
- An owner that acquires a datablock off the head of its frontier, while the valid copy is on another
  node, is parked on the frontier and also requests the copy, so the slot is counted down twice.
  `Acquire.AskedTwiceMisfires` is a run in which the EDT is enqueued while it is still being
  acquired; `Acquire.MisfireIff` says that this is exactly what the guard `AskedTwice` decides.
- A slot whose GUID is neither a datablock nor untyped is counted by no branch of the acquisition:
  `Acquire.EventSlotIsStuck` is such an EDT, `Acquire.EnqueuedIffNotStuck` the condition.
- `mark_reserve` without use is a fetch-or: when it fails it may leave its bit on an entry that became
  available in between, which is then no longer found as available. `RouteRace.RequestedByAccident`
  is such a run, `RouteRace.RequestedIff` the exact condition.
- The end-of-EDT release compares pointers as well as GUIDs, so a datablock is announced once per
  pointer: `Release.TwoPointersAnnounceTwice`, and `Release.OnceIffAgreed` for when it is once.
- Before an EDT runs, the reader lock of every locally coherent datablock among its slots is taken (in
  GPU builds), but the release gives it back only for slots that are neither read-only nor for
  writing: `Release.ReadLockIsKept`, and `Release.LocksBalanceIff` for when all are given back.
- The triangle count takes the inclusive end of a partition for an exclusive one and never visits a
  partition's last vertex. `TriangleCount.SpreadTriangleIsMissed` is a graph it gets wrong,
  `TriangleCount.CountTriangles` states what is counted, `TriangleCount.ExactIff` when that is all.
- The merge of capture histories stops at the length of the longest one, and so may drop late epochs:
  `EpochMerge.LateEpochIsDropped`, and the exact length in `EpochMerge.MergeHistories`.
- The reduction of object tables drops ids when the union does not fit: `ObjectTable.TwoIdsDoNotFit`,
  and `ObjectTable.Reduce` for when it does.
- The size of a route-table level wraps at 32 bits, after which every probe of it is out of bounds:
  `RouteTable.SeventeenthLevelIsEmpty` and `RouteTable.InBoundsIff`; `RouteTable.TooManyAdds` gives the
  runs that get there.

## Model

| member | source | states |
|---|---|---|
| `OoLock.AccessKeepsInv` | libs/src/core/gas/out_of_order_list.c:50-122 | Any single access to the lock words keeps: the reader count counts, the writer word has one owner, and a holder of the writer lock excludes holders of the reader lock. |
| `OoList.StepKeepsGood` | libs/src/core/gas/out_of_order_list.c:128-243 | Every step of an adder, a fire or a reset keeps the whole invariant of lock words, claims, chain and contents. |
| `OoList.WritersExclude` | libs/src/core/gas/out_of_order_list.c:50-122 | In every interleaving, while one call holds the writer lock no other holds it and no adder is inside. |
| `OoList.ItemsAreConserved` | libs/src/core/gas/out_of_order_list.c:128-243 | In every interleaving the callbacks are a prefix, without repetition, of the claims in position order; an accepted item has been delivered in its place or sits in its own position; a refused item is nowhere. |
| `OoList.ElementsAreConserved` | libs/src/core/gas/out_of_order_list.c:138-155 | Every overflow element is on the chain or was dropped empty by a fire, and each on the chain was allocated by the one call that owns its first position. |
| `OoList.FireNeverWaits` | libs/src/core/gas/out_of_order_list.c:212-228 | A fire that has the lock never spins on an empty slot: each step delivers the next item. |
| `OoList.StoreNeverWaits` | libs/src/core/gas/out_of_order_list.c:157-163 | An adder's slot is empty when it stores. |
| `OoList.BlockedAdderHasMover` | libs/src/core/gas/out_of_order_list.c:142-155 | An adder that spins on a missing element waits for a call that can move. |
| `OoList.StepKeepsFired` | libs/src/core/gas/out_of_order_list.c:202-243 | Without resets, after a fire no adder is at work and everything claimed has been delivered. |
| `OoList.FiredIsLastMark` | libs/src/core/gas/out_of_order_list.c:169-243 | In every run the list counts as fired exactly when the last fire or reset that got its lock was a fire. |
| `OoList.TurnedAwayIff` | libs/src/core/gas/out_of_order_list.c:50-78 | An adder is turned away exactly by a fire at work when it comes, or by a fired list once it is inside. |
| `OoList.LoneAdder` | libs/src/core/gas/out_of_order_list.c:128-141 | Left alone on a list nobody writes to, an adder claims the next position if the list is not fired, and is refused if it is. |
| `OoList.LoneReset` | libs/src/core/gas/out_of_order_list.c:169-174 | A reset that finds no reader lets adders in again and leaves items and positions alone; one that finds readers changes nothing. |
| `OoList.SpinsIff` | libs/src/core/gas/out_of_order_list.c:50-163 | A call that is not over spins in exactly two places: before a reset that has the word, and behind the last element of the chain while an earlier position has yet to link the next. |
| `EdtReadiness.StepKeepsInv` | libs/src/core/compute/edt.c:493-518 | Every step of the creator and of the senders keeps: what each slot holds and which operations were written, counted or still parked, and the counter that goes with them. |
| `EdtReadiness.ReadyAtMostOnce` | libs/src/core/compute/edt.c:831-877 | In every interleaving `arts_handle_ready_edt` is called at most once, after the replay has ended, with every signal written once and counted, and with the signalled data in the slots. |
| `EdtReadiness.ReadyIffAtGiveUp` | libs/src/core/gas/out_of_order_list.c:205-260 | When all are through, the EDT became ready if and only if the fire got its lock, or at the moment it gave up no signal was on the list or being put there. |
| `EdtReadiness.MetadataIsInPlace` | libs/src/core/compute/edt.c:761-786 | Whatever overtook what, a slot given metadata has exactly that mode, those flags, that slice offset and slice size when the EDT becomes ready, with its signal's guid and pointer; except for metadata that was on the list or being put there when the fire gave up: then all four are 0. |
| `EdtReadiness.SignalIsInPlace` | libs/src/core/compute/edt.c:836-855 | A slot without metadata has the guid, pointer, mode and flags of its signal, and no slice, when the EDT becomes ready. |
| `EdtReadiness.FinishedIsOver` | libs/src/core/compute/edt.c:507-517 | When creation has returned, the fire has fired or given up, so the two results above cover every run. |
| `EdtReadiness.LossesAreSettled` | libs/src/core/gas/route_table.c:781-810 | From the moment the fire gives up, which signals and metadata are lost does not change any more. |
| `EdtReadiness.SomebodyMoves` | libs/src/core/gas/out_of_order.c:294-346 | In every reachable state in which not everybody is through, some sender or the creator can move. |
| `EdtReadiness.LoneSender` | libs/src/core/gas/out_of_order.c:294-346 | A sender that is left alone writes to the EDT if it finds it, and otherwise gets to park its operation, reserving the entry if there was none. |
| `EdtReadiness.SignalCanBeLost` | libs/src/core/gas/out_of_order_list.c:205-243 | A run in which the fire gives up after its last attempt, everybody finishes and the EDT never becomes ready. |
| `EdtReadiness.MetadataCanBeLost` | libs/src/core/compute/edt.c:761-786 | A run in which the EDT becomes ready with mode 0 in a slot that was given mode 3. |
| `Acquire.OrderIsStable` | libs/src/core/memory/db.c:548-561 | The visiting order has each slot once, ascending by GUID and stable. |
| `Acquire.SortSlots` | libs/src/core/memory/db.c:548-561 | The insertion sort on the index array computes that order. |
| `Acquire.VisitAccounts` | libs/src/core/memory/db.c:563-835 | A visited slot is counted at once or left to exactly one completion, except for unsupported types (none) and `AskedTwice` (two); it aborts exactly for a slice not read-only; the reference held matches the pointer. |
| `Acquire.VisitUses` | libs/src/core/memory/db.c:624-822 | A visit gives a slot its datablock exactly when the datablock is in the table and is LOCAL, or owned here and LC_SYNC or valid here on the head of the frontier, or owned elsewhere and valid here. A slice is copied here exactly when the data is here and fetched otherwise; a whole datablock waits on the frontier exactly at its owner off the head, and is requested exactly when the valid copy is elsewhere. |
| `Acquire.VisitLeaves` | libs/src/core/memory/db.c:566-600 | Any other slot is left as it is, but for the promotion of its mode. |
| `Acquire.DbCameFrom` | libs/src/core/memory/db.c:624-836 | In every run a pointer to a datablock was put into its slot by a visit that found the datablock usable, or by a completion of the frontier or of a request. |
| `Acquire.WaitCameFrom` | libs/src/core/memory/db.c:624-822 | In every run an outstanding completion was asked for by a visit of its slot, with the guard given above. |
| `Acquire.ModesOfRun` | libs/src/core/memory/db.c:574-583 | In every run a slot with its datablock was asked for as a whole and has mode EW if it was RW and there are several nodes, else its own mode; a slot with a slice copy was asked for as a slice and has mode PTR and no slice. |
| `Acquire.RerunIff` | libs/src/core/compute/edt.c:857-865 | The phase runs again exactly when the last unit was counted down by a slice signal; in every other way to zero the EDT is enqueued. |
| `Acquire.StepKeepsInv` | libs/src/core/memory/db.c:538-837 | Visits, the sentinel and the completions each keep the balance between the counter, the slots ahead, the completions outstanding and the slots counted by nobody. |
| `Acquire.ZeroIsSettledIff` | libs/src/core/scheduler.c:875-891 | When the counter is zero, everything is resolved and nothing outstanding if and only if no slot was asked twice. |
| `Acquire.EnqueuedOnceResolved` | libs/src/core/scheduler.c:875-920 | In every order of completions, also when a slice signal runs the phase again, the EDT is enqueued at most once, with all slots resolved and one reference per datablock pointer, if no slot was asked twice. |
| `Acquire.MisfireIff` | libs/src/core/memory/db.c:712-768 | An enqueued EDT got there too early if and only if a slot was asked twice. |
| `Acquire.TwiceMeans` | libs/src/core/memory/frontier.c:496-512 | A slot is counted as asked twice exactly when the guard `AskedTwice` held at its visit. |
| `Acquire.EnqueuedIffNotStuck` | libs/src/core/memory/db.c:824-834 | A run that has come to rest without misfiring enqueued the EDT if and only if no slot was signalled with an unsupported type. |
| `Acquire.EventSlotIsStuck` | libs/src/core/memory/db.c:824-834 | An EDT with one slot, signalled with an event's GUID, comes to rest without being enqueued. |
| `Acquire.StepDecreases` | libs/src/core/compute/edt.c:857-865 | Every effective step brings the run nearer its end; there is at most one second round. |
| `Acquire.AskedTwiceMisfires` | libs/src/core/memory/db.c:716-768 | A run in which both completions of one slot arrive and the EDT is enqueued while the sentinel is still held, with two references. |
| `Release.Edt.SeenWriteDep` | libs/src/core/memory/db.c:78-90 | Whether an earlier write slot has the same GUID and pointer. |
| `Release.Edt.ReleaseDbs` | libs/src/core/memory/db.c:895-963 | The log and the slots after release_dbs, slot by slot. |
| `Release.Edt.DbRelease` | libs/src/core/memory/db.c:1000-1052 | The log and the slots after arts_db_release of a dependency. |
| `Release.Edt.ReleaseAll` | libs/src/core/memory/db.c:895-1052 | The log of an EDT that releases any datablocks early and then ends. |
| `Release.RunAccounts` | libs/src/core/memory/db.c:895-1052 | Over any such EDT, the references returned and the copies freed match what the slots held; so do the announcements when write slots of one name share a pointer. |
| `Release.OneAnnouncement` | libs/src/core/memory/db.c:923-943 | When write slots of one name share a pointer, each shared datablock acquired for writing that has a frontier or another owner gets exactly one frontier progress if it is owned here and exactly one update sent to its owner if not, and none of the other kind, however many slots name it and whenever it is released; others get none. |
| `Release.OtherKindNever` | libs/src/core/memory/db.c:923-943 | No EDT ever progresses the frontier of a datablock owned elsewhere or sends an update for one owned here, at its end or early. |
| `Release.OneReturnPerSlot` | libs/src/core/memory/db.c:955-961 | Each slot's route-table reference is returned exactly once, pointers agreeing or not. |
| `Release.OneFreePerCopy` | libs/src/core/memory/db.c:898-905 | Each slice copy is freed exactly once, pointers agreeing or not. |
| `Release.OneAnnouncementPerPointer` | libs/src/core/memory/db.c:78-90 | Without assuming that pointers agree, release_dbs announces once per pointer, all by progress at the owner and all by updates elsewhere, and not at all without a frontier. |
| `Release.AnnouncementsOfRun` | libs/src/core/memory/db.c:895-1052 | Over any EDT, pointers agreeing or not: a datablock released early is announced at its first write slot, any other once per pointer; all by frontier progress if it is owned here and all by updates if not. |
| `Release.OnceIffAgreed` | libs/src/core/memory/db.c:895-1052 | Over any EDT, a datablock to be announced is announced exactly once, in the way its owner calls for, if and only if it was released early or its write slots share one pointer. |
| `Release.TwoPointersAnnounceTwice` | libs/src/core/memory/db.c:923-943 | Two write slots of one datablock owned elsewhere with different pointers: its owner is updated twice. |
| `Release.UnlocksOfRun` | libs/src/core/memory/db.c:947-953 | Reader unlocks of a pointer over any EDT: one per slot of a locally coherent datablock that is neither read-only nor for writing and was not released early. |
| `Release.LocksBalanceIff` | libs/src/core/memory/db.c:869-876 | Without LC_SYNC slots on it, the reader locks taken on a pointer before the EDT are all given back if and only if none of those slots is read-only or for writing and none is released early. |
| `Release.ReadLockIsKept` | libs/src/core/memory/db.c:944-953 | A locally coherent datablock acquired read-only keeps its reader lock. |
| `RouteTable.WindowIsBounded` | libs/src/core/gas/route_table.c:287-335 | Every probe of a level with 2^shift buckets is in bounds. |
| `RouteTable.WindowIsTopBits` | libs/src/core/gas/route_table.c:334 | The window begins at the bucket named by the top bits of the 64-bit product of key and multiplier. |
| `RouteTable.FallsThrough` | libs/src/core/gas/route_table.c:287-332 | Each case of the multiplier is its factor times the next case there is, modulo 2^64. |
| `RouteTable.Table.SearchForKey` | libs/src/core/gas/route_table.c:370-391 | The search finds an entry exactly when the map has the key in that state, and finds it where it is. |
| `RouteTable.OneState` | libs/src/core/gas/route_table.c:171-199 | An entry that is not deleted and is reserved or available is in exactly one of the states reserved, available and requested, and these are the allocated ones. |
| `RouteTable.Table.LookupItem` | libs/src/core/gas/route_table.c:646-655 | The payload of an available entry; NULL for an entry that is reserved, requested or deleted and for a missing one. |
| `RouteTable.Table.MarkRequested` | libs/src/core/gas/route_table.c:106-120 | An available entry becomes requested: it is then found as requested and no longer as available. It fails exactly on a reserved or deleted entry. |
| `RouteTable.Table.SearchForEmpty` | libs/src/core/gas/route_table.c:393-430 | A new key takes a free slot and no entry moves; one level is added exactly when every window of the key is full; it fails exactly when then the next level would lack buckets. The key is then found as reserved and as allocated, and not as available, requested or deleted. |
| `RouteTable.Table.AddItem` | libs/src/core/gas/route_table.c:432-441 | The map gains the key with its payload, under the same exact conditions for growth and failure. The key is then found as available and as allocated, and not as reserved, requested or deleted. |
| `RouteTable.Table.FreeItem` | libs/src/core/gas/route_table.c:81-96 | The map loses exactly that key, which is then found in no state, and no entry moves; the slot keeps only its rank. |
| `RouteTable.RunAll` | libs/src/core/gas/route_table.c:354-447 | A run of any length of additions of new keys and removals leaves the table agreeing with the map and every untouched entry in place; it stops short only at an addition with every window full and no level to add. |
| `RouteTable.LookupAfterRun` | libs/src/core/gas/route_table.c:370-655 | After any such run from an empty table, a lookup gives the payload of the key's last addition, or NULL if it was removed since or never added. |
| `RouteTable.MissedEverywhere` | libs/src/core/gas/route_table.c:370-391 | A key looked for in vain in its window on every level is not in the table. |
| `RouteTable.SizesDouble` | libs/src/core/gas/route_table.c:415-419 | Starting from 2^shift buckets a level has all its buckets exactly while its shift is below 32, and none after. |
| `RouteTable.InBoundsIff` | libs/src/core/gas/route_table.c:393-419 | So a probe of level k is in bounds if and only if its shift is below 32, whatever the key. |
| `RouteTable.GrowsIff` | libs/src/core/gas/route_table.c:415-419 | And the chain can grow if and only if the next shift is below 32. |
| `RouteTable.SeventeenthLevelIsEmpty` | libs/src/core/system/config.c:1045 | The default table of shift 16 has a level 16 without slots, so every probe there is out of bounds. |
| `RouteTable.CapacityBound` | libs/src/core/gas/route_table.c:354-430 | A table that began with 2^shift buckets never holds more than 8 * (2^32 - 2^shift) entries. |
| `RouteTable.TooManyAdds` | libs/src/core/gas/route_table.c:393-430 | More new keys than that, added to an empty table, come to an addition with every window full and a next level without slots. |
| `RouteRace.StepKeepsInv` | libs/src/core/gas/route_table.c:481-531 | Every step of any call on any key keeps: one call per stripe, one entry per key, and one winner per filled entry. |
| `RouteRace.OneWinnerPerKey` | libs/src/core/gas/route_table.c:481-621 | In every interleaving a key has at most one entry, all its callers get that entry, and once an addition has returned exactly one reported that it added; the entry is available and holds that one's payload, also when it had been reserved before. |
| `RouteRace.ReservedByItsMaker` | libs/src/core/gas/route_table.c:582-621 | In every interleaving a reservation reports success exactly when it made the entry; so at most one of a key does, and none when an addition made it. |
| `RouteRace.LockIsHeld` | libs/src/core/gas/route_table.c:481-531 | In every interleaving a stripe lock is set exactly while a call is inside, so it is given back by every call. |
| `RouteRace.PeekIff` | libs/src/core/gas/route_table.c:517-522 | A caller that meets a busy lock leaves with the entry exactly when its scan finds it, available if it is to be added. |
| `RouteRace.FilledStays` | libs/src/core/gas/route_table.c:493-512 | A filled entry keeps its key and payload. |
| `RouteRace.RequestedIff` | libs/src/core/gas/route_table.c:98-104 | An entry becomes requested in a step exactly when a call without use, that had seen its slot free, hits it when available. |
| `RouteRace.UsedAtOnceNeverRequests` | libs/src/core/gas/route_table.c:98-104 | If every call uses its entry at once, no entry is ever requested; reservations do, but the additions at libs/src/core/compute/edt.c:510 and elsewhere do not. |
| `RouteRace.RequestedByAccident` | libs/src/core/gas/route_table.c:393-405 | A run of two additions without use in which a finished entry becomes requested. |
| `GuidLayout.Make` | libs/include/internal/arts/gas/guid.h:105-110 | Type, rank and key can be read back from the packed word. |
| `GuidLayout.MakeInverse` | libs/include/internal/arts/gas/guid.h:92-110 | Packing the fields of a word gives the word. |
| `GuidLayout.OrderedByFields` | libs/include/internal/arts/gas/guid.h:71-110 | GUIDs are ordered by type, then rank, then key. |
| `Guid.Generator.CreateForRank` | libs/src/core/gas/guid.c:60-85 | The keys handed out are not 0, are disjoint from every earlier reservation of the node under their rank and type and, after startup, in the thread's own block; none are handed out exactly when they are exhausted. |
| `Guid.Generator.AfterParallelStart` | libs/src/core/gas/guid.c:91-96 | The keys left are cut into blocks of the largest equal size, all below every key handed out so far. |
| `Guid.EventKeepsInv` | libs/src/core/gas/guid.c:60-124 | Every reservation and every end of startup keeps each reservation behind its generator and those of one phase disjoint. |
| `Guid.ReservationsDisjoint` | libs/src/core/gas/guid.c:60-179 | Over any run, later reservations anywhere in the cluster, startup ones of one node, and later against startup ones never overlap in type, rank and key. |
| `Guid.GuidsNeverCollide` | libs/src/core/gas/guid.c:60-179 | Over any run in which every node has started, no GUID is in two reservations, single or range, except that startup reservations of different nodes may coincide. |
| `Guid.KeysNeverZero` | libs/src/core/gas/guid.c:118-122 | Over any run no node hands out key 0. |
| `Guid.TableIsStable` | libs/src/core/gas/route_table.c:342-352 | A worker's later GUID is in that worker's table on its node and in the remote table elsewhere; a network thread's or a startup GUID is in the remote table everywhere. |
| `Guid.TableOfStartup` | libs/src/core/gas/route_table.c:342-352 | For a startup GUID the answer is the same before and after the block size is set. |
| `Guid.AlignRange` | libs/src/core/gas/guid.c:181-197 | The aligned start is the first multiple of the hash size in the range, and the range still fits. |
| `EdtPool.Pools.Alloc` | libs/src/core/compute/edt.c:147-163 | It is NULL exactly for an oversized request or an empty list; otherwise the block is the head of the thread's own list for the class, is off that list and no other, has its class's capacity and is all zero. |
| `EdtPool.Pools.Create` | libs/src/core/compute/edt.c:387-411 | The EDT gets a live block, large enough and all zero but for its header, which records the capacity: the head of the thread's list for the class exactly when that is not empty, else a new one. |
| `EdtPool.Pools.Free` | libs/src/core/compute/edt.c:170-191 | The block becomes the head of the freeing thread's list of its class, or goes to the allocator when that is full or the block oversized; no other list changes. |
| `EdtPool.Pools.Recycle` | libs/src/core/compute/edt.c:147-191 | A block freed by a thread whose list has room is the next one the thread creates of its class, and the lists are then as before. |
| `EdtPool.Pools.Cleanup` | libs/src/core/compute/edt.c:194-207 | Exactly the thread's pooled blocks are given back. |
| `EdtPool.PopKeeps` | libs/src/core/compute/edt.c:152-161 | Taking the head keeps the lists, their counts and every other block's place. |
| `EdtPool.PushKeeps` | libs/src/core/compute/edt.c:179-191 | So does putting a live block back. |
| `EdtPool.OneHome` | libs/src/core/compute/edt.c:75-93 | A pooled block is on one list only, of its class, and counts equal lengths and stay within 64. |
| `Timer.CaptureKeeps` | libs/src/core/counter/counter.c:85-97 | Each access of a capture keeps the balance of counted, due and elapsed time. |
| `Timer.RunReads` | libs/src/core/counter/counter.c:271-284 | In every interleaving the time recorded as elapsed is that of the timestamps taken so far, pair by pair. |
| `Timer.CountIsElapsed` | libs/src/core/counter/counter.c:271-284 | In every interleaving with captures, whenever the timer is stopped and no add is due, the count is the sum over the timestamps that the starts and ends took, each end minus its start, modulo 2^64. |
| `Timer.NeverFails` | libs/src/core/counter/counter.c:271-284 | The timer's error exits are never taken. |
| `EpochMerge.NextCapture` | libs/src/core/counter/counter.c:125-168 | The next deadline stays on the interval grid and in the future; a late capture gets the epoch its time lies in. |
| `EpochMerge.CaptureLoop` | libs/src/core/counter/counter.c:113-168 | The epochs are strictly increasing, and each belongs to its time: the next epoch for a capture before its deadline, else the number of the interval the time lies in. |
| `EpochMerge.MergeHistories` | libs/src/core/counter/counter.c:951-1028 | The output is the first epochs of the union, strictly ascending, as many as the longest history has or the union if smaller, each with the reduction over exactly the histories that have it. |
| `EpochMerge.ReduceEpoch` | libs/src/core/counter/counter.c:499-523 | One epoch's reduction in index order, and the positions moved past it. |
| `EpochMerge.ReducedMeans` | libs/src/core/counter/counter.c:287-302 | The reduced value bounds every source's value for MIN and MAX. |
| `EpochMerge.MasterMeans` | libs/src/core/counter/counter.c:287-302 | MASTER is the first source's value, or 0 when that source lacks the epoch. |
| `EpochMerge.ReducedAttained` | libs/src/core/counter/counter.c:287-302 | MIN and MAX are the value of one of the sources that have the epoch. |
| `EpochMerge.SumMeans` | libs/src/core/counter/counter.c:287-302 | SUM is the sum over the sources that have the epoch modulo 2^64. |
| `EpochMerge.LateEpochIsDropped` | libs/src/core/counter/counter.c:963-985 | Two histories of one capture each, at epochs 1 and 2, merge into epoch 1 alone. |
| `CaptureHistory.WriteHistory` | libs/src/core/counter/counter.c:352-378 | The text written, or none for an empty history. |
| `CaptureHistory.TextFitsBuffer` | libs/src/core/counter/counter.c:359-362 | Text and terminator fit in 45 bytes per entry and ten more. |
| `CaptureHistory.ParseCaptureHistory` | libs/src/core/counter/counter.c:805-842 | The parser's result for any text, never more than the limit. |
| `CaptureHistory.ReadsBack` | libs/src/core/counter/counter.c:824-834 | A printed 64-bit number in front of a non-digit is read back, leaving the rest. |
| `CaptureHistory.RoundTrip` | libs/src/core/counter/counter.c:805-842 | Parsing the text of a non-empty history gives the history, cut at the parser's limit. |
| `CaptureHistory.SpacedRoundTrip` | libs/src/core/counter/counter.c:805-842 | The same for the entries laid out with any white space between the tokens and any text behind the array. |
| `CaptureHistory.ReadsSigned` | libs/src/core/counter/counter.c:824-834 | The model of strtoull takes a sign, wraps a negated number and saturates at the largest word. |
| `CaptureHistory.ReadsNothing` | libs/src/core/counter/counter.c:824-834 | Without a digit it consumes nothing and gives 0. |
| `ObjectTable.Table.FindSlot` | libs/src/core/counter/object_counter.c:86-107 | Probing ends with the id's slot, made if need be, or with none exactly when the table is full without it. |
| `ObjectTable.Table.Record` | libs/src/core/counter/object_counter.c:140-162 | The id's totals grow by the record modulo 2^64, unless the id is zero or the table full without it. |
| `ObjectTable.NotThere` | libs/src/core/counter/object_counter.c:89-98 | Probing past other ids to a free slot, or all the way round, shows that the id is absent. |
| `ObjectTable.InsertKeeps` | libs/src/core/counter/object_counter.c:100-104 | A new id in the first free slot keeps every id reachable. |
| `ObjectTable.RoomCount` | libs/src/core/counter/object_counter.c:89-98 | A table holds as many ids as slots exactly when no slot is free. |
| `ObjectTable.Reduce` | libs/src/core/counter/object_counter.c:242-264 | The result is the pointwise sum if and only if the union of the ids fits the table; otherwise the table is full, every id it had before and every other it holds has its sum. |
| `ObjectTable.ReduceAll` | libs/src/core/counter/object_counter.c:242-264 | Any number of tables reduce into one with the pointwise sums if and only if the union of their ids fits. |
| `ObjectTable.TwoIdsDoNotFit` | libs/src/core/counter/object_counter.c:242-264 | Reducing two tables of one slot with different ids loses an id. |
| `ObjectTable.MergeAllIsSum` | libs/src/core/counter/object_counter.c:256-262 | For every id that is the sum of the recorded totals modulo 2^64. |
| `Bfs.StepKeepsInv` | examples/cpu/bfs.c:75-127 | Every access of every task keeps: levels are lengths of walks, and every edge out of a reached vertex is relaxed or has a task on its way. |
| `Bfs.LevelsNeverBelowDistance` | examples/cpu/bfs.c:75-127 | At every point of every run, a level is never below the distance from the source. |
| `Bfs.StepDecreases` | examples/cpu/bfs.c:75-127 | Every step lowers the levels, or leaves them and lowers the work left. |
| `Bfs.FinishedLevelsAreDistances` | examples/cpu/bfs.c:152-155 | With no task left, every level is the distance, or UINT64_MAX if there is none. |
| `Bfs.BfsIsCorrect` | examples/cpu/bfs.c:75-155 | For every scheduler the run from the source ends with the distances. |
| `TriangleCount.LowerBound` | examples/cpu/triangle_count.c:124-130 | The first index whose entry is not below the value. |
| `TriangleCount.UpperBound` | examples/cpu/triangle_count.c:132-138 | The end left after dropping the entries above the value. |
| `TriangleCount.CountCommon` | examples/cpu/triangle_count.c:140-156 | The number of vertices the two windows share. |
| `TriangleCount.CheckAndSet` | examples/cpu/triangle_count.c:78-85 | Tells whether the node's bit of the mask word was clear; afterwards it is set and every other bit is as it was. |
| `TriangleCount.ShiftDefinedIff` | examples/cpu/triangle_count.c:78-79 | The int shift that makes a node's bit is defined for exactly 31 nodes. |
| `TriangleCount.WindowsAreMiddles` | examples/cpu/triangle_count.c:165-181 | The two windows share exactly the middle vertices of the triangles. |
| `TriangleCount.ProcessVertex` | examples/cpu/triangle_count.c:158-196 | A node counts its share of a vertex's triangles and lists, each once, exactly the other owners outside the mask of a neighbour after the first higher one; nobody else has a share. |
| `TriangleCount.VisitVertices` | examples/cpu/triangle_count.c:222-232 | What a range counts plus what its messages will count is all its triangles; no vertex goes to a node twice. |
| `TriangleCount.VisitForwarded` | examples/cpu/triangle_count.c:213-221 | A forwarded vertex adds the receiver's share and is not forwarded again. |
| `TriangleCount.StartWork` | examples/cpu/triangle_count.c:253-279 | A node's tasks are disjoint ranges that cover its block up to, but without, its last vertex; how many they are. |
| `TriangleCount.OverSubscribed` | examples/cpu/triangle_count.c:254-261 | A node with at least 16 vertices per worker gets more than 16 tasks per worker, a smaller one a task per vertex. |
| `TriangleCount.CountTriangles` | examples/cpu/triangle_count.c:158-279 | With tasks taken in any order, the total plus the triangles whose smallest vertex is the last of its block is the number of triangles, and no vertex is forwarded to a node twice. |
| `TriangleCount.ExactIff` | libs/src/graph/distribution/block_distribution.c:148-155 | Nothing is missed if and only if no block's last vertex has two higher neighbours adjacent to each other. |
| `TriangleCount.OneNodeIsExact` | libs/src/graph/distribution/block_distribution.c:148-155 | On one node nothing is missed. |
| `TriangleCount.SpreadTriangleIsMissed` | examples/cpu/triangle_count.c:263-279 | A triangle over three nodes is not counted. |

## Left out

- Events, channel events, frontier and epoch-termination internals: their effects are logged or enter as completions.
- Deletion of route-table entries while others use them, and reference counts in the lock word: the race is modelled for keys that are not being deleted.
- Concurrent growth of a route-table level: the map refinement is for one thread at a time, and the race takes the probe sequences as given.
- The route table keeps its levels as sequences that methods reassign: pointers into the table held by callers are positions, not aliases.
- The wait-release and wait-reacquire of datablocks, and datablocks an EDT created itself.
- GPU, CUDA and LC copies, NUMA binding, networking, launching, configuration, signal handling and printing.
- Deferral of signals while an invalidation is pending.
- Signals for a slot number at or beyond the slot count, which only count down.
- Acquire.OrderIsStable: that the order keeps EDTs from waiting for each other in a circle, as the comment at libs/src/core/memory/db.c:545-547 says, is not claimed; a slot that has to wait does not stop its EDT from asking for the next one.
- Acquire.StepDecreases: says nothing of runs after a misfire, which the other results about misfires cover only up to that point.
- Acquire.VisitAccounts: the different remote requests are one kind of completion, since each ends in the same callback.
- Release.OneAnnouncement: for arrays whose write slots point at their datablock and agree on it (`Release.AnnouncementsOfRun` does without the agreement), and early releases of a datablock with a frontier under a GUID that is not null; a null pointer in a write slot, and a missing frontier in an early release, are dereferenced by the code.
- EdtReadiness.ReadyAtMostOnce: an entry is absent, reserved or available; the state of `RouteRace.RequestedByAccident`, in which the search for an available entry fails, is not part of this machine, so a replay that misses the entry for that reason is not covered.
- EdtReadiness.SomebodyMoves: somebody can always move, but an adder and a fire may go on refusing each other; that every schedule ends is not claimed.
- Guid.ReservationsDisjoint: a startup reservation is compared with later ones once its node has started with the block size all nodes agree on; startup keys of different nodes may coincide by design.
- EpochMerge.NextCapture: times stay below 2^63 nanoseconds, so the signed difference does not wrap.
- TriangleCount.CountTriangles: no block begins past the end of the vertices, where the code's block sizes underflow, and there are at most 31 nodes, so that each owner has a bit of its own in the mask.
- ObjectTable: the hash, the collision statistics and the datablock half of the table, which repeats the EDT half.
- EdtPool: the flag that marks a thread's pool as initialised, since a thread starts with empty lists either way.
- JSON around the history text, object traces, and the remaining example programs.
