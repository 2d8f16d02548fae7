# A verified model of the NVMeVirt FDP device

This project models the device logic of NVMeVirt with Flexible Data Placement (FDP) and
proves properties of it with Dafny: the page-mapped flash translation layer (FTL) with
reclaim unit handles, its garbage collector and statistics, the priority queue of victim
lines, the read path, the event log, the timing model of channels and flash, the I/O
worker's queues, zoned namespaces and the key-value table.  `dafny verify dfyconfig.toml`
checks everything.

## How the model is built

The FTL exists three times.

* `FtlModel` is one partition as a function from state to state.  A line's pages are
  numbered in the order in which the write pointer programs them.  Every `NVMEV_ASSERT` is
  an outcome `BugOn`, and running out of free lines an outcome `NoFreeLine`.  `FdpDevice`
  stripes logical pages over partitions and adds the write command.  All whole-run theorems
  (`FdpTheorems`, `FdpAccounting`, `FdpSymmetry`, `FdpConfig`, `FdpFill`, `FdpEvents`,
  `FdpCredits`, `FdpPlacement`, `FdpRotation`, `FdpReplies`) are about these functions, and
  `FdpReading` joins them to the read path.
* `Geometry`, `FtlLayout` and `SsdParams` derive the numbering, the assignment of pages to
  blocks and the order of the GC sweep from channels, LUNs, one-shot pages and flash pages.
* `FdpFtl` and `FdpNamespace` are the same FTL as objects, with the arrays, the linked
  counters and the loops of `fdp_ftl.c`.  Each method is proved to do exactly what the
  function of `FtlModel` or `FdpDevice` says; what the source asserts is a precondition
  there, and `FtlReady` shows that the invariant provides it.  `FdpController` adds the
  event log of `EventLog`.

The invariant (`FtlInv.Inv`) says: each line is in exactly one of the free list, the full
list, the victim heap or one open frontier; list counters, line and block counters are
true counts; the heap is ordered by valid pages and its back-pointers are exact; maptbl and
rmap are mutually inverse between mapped logical pages and VALID pages; credits are between
1 and pgs_per_line.  During a collection it holds with the victim in the collector's hand,
so it is kept by every single step.

The other components stand alone: `Pqueue` and `PriorityQueue` (the heap, as functions and
in place), `ReadPath`, `ChannelModel`, `NandTiming` (which uses it), `IoWorker`, `Zns`,
`KvTable`.  `Finite` and `Common` hold facts about sets, sums and arithmetic.

## What came out of the proofs

* Free lines: fewer than (tt_lines - 2(N+1)) * pgs_per_line distinct logical pages per
  partition are enough for every run (`FdpConfig.FdpFreeLines`).  The bound matters: with
  N = 8, 128 lines and 7 % over-provisioning (ssd_config.h:207, 231, 251) the logical space
  is larger than that, and `FdpFill.FillThenRewriteRunsOut` describes runs that fill the
  device through one handle and then rewrite, after which `advance_write_pointer`
  dereferences a null line.  These need (tt_lines - N - 1) * pgs_per_line distinct pages
  (`FdpFill.BoundCannotReach`).  For numbers of pages from the first bound up to the second
  the question is open: no such run is shown to fail, and they are not proved to succeed.
* Channel ring: the slot gap is kept in 32 bits (channel_model.c:43).  After an idle period
  of at least 2^32 slots the ring can keep charging for grants long past;
  `ChannelModel.FaithfulForward` gives the exact condition, `ChannelModel.StaleRing` and
  `ChannelModel.IdleTooLong` a channel on which it fails and shows.  A clock that steps
  back empties the ring (`ChannelModel.FaithfulBack`).
* Statistics: `MBMW - MBE` is a whole number of programmed pages exactly when all accepted
  commands are page-aligned, because bytes are accounted per LBA and pages per page.
* I/O worker: the list is ordered as long as latest_nsecs does not go back; the
  worker may walk onto reclaimed slots, but only onto ones that were used before, which it
  skips.
* Set Features for FDP events takes the number of descriptors from 8 bits, while the
  comment there speaks of bits 31:16 (fdp_ftl.c:182-183).  The model follows the code.
* mark_page_invalid and the priority queue never see a full heap array (`FtlReady.HeapFits`),
  although pqueue_insert would write past it.

## Model

| member | source | states |
|---|---|---|
| `Pqueue.BubbleUpCorrect` | pqueue/pqueue.c:56-71 | bubble_up repairs a heap whose only disorder is one element against its ancestors: order, back-pointers and element multiset afterwards, all other positions untouched |
| `Pqueue.MaxChild` | pqueue/pqueue.c:73-85 | the child of least priority, the left one if both are equal, 0 exactly for a leaf |
| `Pqueue.PercolateDownCorrect` | pqueue/pqueue.c:87-102 | percolate_down repairs a heap whose only disorder is one element against its descendants |
| `Pqueue.InsertCorrect` | pqueue/pqueue.c:104-129 | insertion keeps heap order and back-pointers and adds exactly one element |
| `Pqueue.ChangePriorityCorrect` | pqueue/pqueue.c:131-142 | changing the key of a stored element keeps heap order, the elements and the back-pointers, whichever way the key moves |
| `Pqueue.PopCorrect` | pqueue/pqueue.c:156-168 | pop removes the top and nothing else, also when it is the last element, and the top had the least priority of all elements |
| `Pqueue.TopIsLeast` | pqueue/pqueue.c:170-178 | in an ordered heap no element has a smaller priority than the top |
| `Pqueue.SiftStays` | pqueue/pqueue.c:56-102 | elements are moved only past strictly larger ones: sifting an element that is in its place, up or down, changes nothing |
| `PriorityQueue.Queue.constructor` | pqueue/pqueue.c:14-42 | an empty heap with room for n elements |
| `PriorityQueue.Queue.BubbleUp` | pqueue/pqueue.c:56-71 | the in-place loop computes Pqueue.BubbleUp on the arrays |
| `PriorityQueue.Queue.MaxChild` | pqueue/pqueue.c:73-85 | computes Pqueue.MaxChild |
| `PriorityQueue.Queue.PercolateDown` | pqueue/pqueue.c:87-102 | the in-place loop computes Pqueue.PercolateDown on the arrays |
| `PriorityQueue.Queue.Insert` | pqueue/pqueue.c:104-129 | computes Pqueue.Insert; the caller must leave a free slot, which the source does not check |
| `PriorityQueue.Queue.ChangePriority` | pqueue/pqueue.c:131-142 | computes Pqueue.ChangePriority |
| `PriorityQueue.Queue.Pop` | pqueue/pqueue.c:156-168 | returns the top and computes Pqueue.Pop |
| `Geometry.AdvanceIsNext` | fdp_ftl.c:409-440 | the write pointer visits the places 0..P-1 of a line one after the other and closes the line exactly after the last |
| `Geometry.SlotOfOffset` | fdp_ftl.c:409-485 | the numbering of pages by programming order loses nothing: (ch, lun, pg) is recovered from it |
| `Geometry.OffsetSlotOf` | fdp_ftl.c:409-485 | every number below pgs_per_line is the place of exactly one page |
| `Geometry.OffsetBound` | fdp_ftl.c:409-485 | places are numbered below pgs_per_line |
| `Geometry.IndexBound` | fdp_ftl.c:229-243 | ppa2pgidx stays below tt_pgs |
| `Geometry.IndexInjective` | fdp_ftl.c:229-243 | ppa2pgidx gives different pages different indices |
| `SsdParams.InitParams` | ssd.c:68-159 | flash pages tile one-shot pages tile blocks, the page sizes are as configured, and the geometry holds the partition's share of the capacity and is no larger than that takes: with one one-shot page less per block, or one block less per LUN, it would not |
| `SsdParams.Blocks` | ssd.c:86-96 | number and size of the blocks, whichever of the two is configured, cover the capacity, and the other is the least that does |
| `FtlLayout.BlockCard` | fdp_ftl.c:928-962 | every block of a line holds pgs_per_blk of the places in programming order |
| `FtlLayout.LoopsSweep` | fdp_ftl.c:928-962 | do_gc's nested loops, from any position, clean each page once before its block is erased and erase each block once |
| `FtlLayout.LayoutConfigOk` | ssd.c:133-159 | every geometry satisfies what the theorems below assume of a configuration; blocks times pages make lines, lines times pages make tt_pgs |
| `FtlAppend.AppendKeeps` | fdp_ftl.c:409-485 | programming the next page of a frontier never trips an assertion, keeps the whole invariant, and fails exactly when the open line is used up and no line is free |
| `FtlInvalidate.SupersedeKeeps` | fdp_ftl.c:668-707 | invalidating the old copy of a page never trips an assertion and keeps ledger, counters, heap and maps, with that page alone in transit |
| `FtlInvalidate.ValidLinePlace` | fdp_ftl.c:668-707 | a line with a VALID page is full, in the victim heap, or open; never free |
| `FtlGc.GcWriteKeeps` | fdp_ftl.c:767-802 | copying a victim page never trips an assertion and moves its logical page |
| `FtlGc.SweepKeeps` | fdp_ftl.c:847-960 | cleaning and erasing the victim never trips an assertion and keeps the invariant at every step |
| `FtlGc.GrantedCredits` | fdp_ftl.c:904-926 | every victim has an invalid page, so a collection grants at least one and at most pgs_per_line credits |
| `FtlGc.DoGcKeeps` | fdp_ftl.c:904-967 | a collection never trips an assertion and keeps the invariant: each line in exactly one place, counters true, heap ordered, maptbl and rmap inverse |
| `FtlGc.SpendKeeps` | fdp_ftl.c:284-299 | after every page write 1 <= write_credits <= pgs_per_line: the unsigned credit never wraps |
| `FtlCredits.SpendGrants` | fdp_ftl.c:284-299 | a collection leaves exactly as many credits as its victim had INVALID pages; without one a credit is used up, and after the last the previous refill is granted again |
| `FtlCredits.WriteGrants` | fdp_ftl.c:1145-1180 | the same for a page write, which collects only with its last credit |
| `FdpCredits.CreditPace` | fdp_ftl.c:284-299 | after any page writes the credits of a partition are the INVALID pages of the last line collected there (a whole line before the first) less the host pages written since they ran out |
| `FdpCredits.BetweenDue` | fdp_ftl.c:284-299 | between two points at which the credits of a partition run out exactly as many host pages are written to it as its last collection reclaimed |
| `FdpCredits.FirstDue` | fdp_ftl.c:345-352 | they first run out after pgs_per_line host pages |
| `FdpCredits.ReclaimsWhenDue` | fdp_ftl.c:904-967 | a page write collects exactly when the credits run out, at most the threshold of lines are free and the victim heap is not empty |
| `FdpCredits.RunPace` | fdp_ftl.c:1074-1190 | all of this for the page writes of every run of commands |
| `FtlGc.WritePageKeeps` | fdp_ftl.c:1145-1180 | no host page write trips an assertion, and each that finds its lines re-establishes the whole invariant |
| `FtlInit.InitInv` | fdp_ftl.c:519-543 | fdp_init_ftl establishes the invariant, with an empty logical view |
| `FdpTheorems.EveryLineOnce` | fdp_ftl.c:301-337 | after every run each line of each partition is counted exactly once over the free list, full list, victim heap and open frontiers, its position field is non-zero exactly in the heap, and the counters are the list lengths |
| `FtlInv.CountersSum` | fdp_ftl.c:301-337 | free, full and victim counters and the N + 1 open lines sum to tt_lines |
| `FtlReady.HeapFits` | pqueue/pqueue.c:104-129 | the victim heap never outgrows the tt_lines + 1 slots it was given |
| `FtlReady.ForcedGcTakesBest` | fdp_ftl.c:804-824 | a forced collection takes a line with the fewest VALID pages among all candidates |
| `FtlReady.UnforcedGcWaits` | fdp_ftl.c:804-824 | one that is not forced takes a line exactly if some candidate has at most an eighth of its pages VALID |
| `FtlReady.CollectReady` | fdp_ftl.c:904-926 | the line do_gc takes is closed, entirely programmed and out of reach of the GC frontier, and the sweep over it succeeds |
| `FtlView.DoGcInvisible` | fdp_ftl.c:904-967 | a collection leaves the logical view unchanged and respects placement |
| `FtlView.WritePageView` | fdp_ftl.c:1145-1180 | a page write changes exactly the logical page it names, whatever collection it sets off, and hands it to its handle |
| `FtlSpace.DoGcSlots` | fdp_ftl.c:904-967 | a collection gains as many free slots as its victim had invalid pages, which is also the number of credits it grants |
| `FtlSpace.DoGcFinds` | fdp_ftl.c:904-967 | with (N+1)(P+1) free slots in hand a collection never runs out of lines |
| `FtlSpace.VictimAtHand` | fdp_ftl.c:804-824 | when GC is due and fewer pages are mapped than the committed lines hold, the victim heap is not empty |
| `FtlSpace.WritePageSpace` | fdp_ftl.c:284-299 | a page write that keeps the working set small finds all its lines and keeps (free slots) - credits >= (N+1)(P+1) |
| `FtlInit.InitSpace` | fdp_ftl.c:345-352 | the initial state has that many free slots |
| `FdpFill.FillThenRewriteRunsOut` | fdp_ftl.c:359-374 | a run of single-page commands through one handle that writes (tt_lines - N - 1) * P distinct pages of partition 0 and then one more line of any pages ends in advance_write_pointer without a free line |
| `FdpFill.BoundCannotReach` | fdp_ftl.c:359-374 | so the bound of FreeLinesSuffice cannot be raised to (tt_lines - N - 1) * P: on every device with a spare line some run touches exactly that many pages and runs out |
| `FtlStats.SweepCopiesAll` | fdp_ftl.c:847-960 | the sweep calls gc_write_page once for each VALID page of the victim |
| `FtlStats.DoGcCharged` | fdp_ftl.c:729-748 | a completed collection calls gc_write_page once per VALID victim page, fewer than a line holds, and erases the whole line: MBMW and MBE grow by exactly that |
| `FtlStats.WritePageCharged` | fdp_ftl.c:1145-1180 | a host page write programs one page and is charged for the collection it sets off, which it does exactly when its credit was the last, free lines are low and there is a victim: the gc_write_page calls of that collection and the erasure of one line |
| `FdpDevice.RunIsOps` | fdp_ftl.c:1074-1190 | a run of write commands is the run of its page writes, byte counts and attribute changes, in order |
| `FdpTheorems.RunSafe` | fdp_ftl.c:1074-1190 | in every run of write commands no assertion fires and every partition satisfies the invariant |
| `FdpTheorems.ReadsLastWrite` | fdp_ftl.c:1074-1190 | after every run, every logical page reads what the last accepted command covering it wrote, or nothing if there is none |
| `FdpTheorems.Isolation` | fdp_ftl.c:1113-1166 | in every run a VALID page on a line tagged with handle r holds a logical page whose latest accepted write named r, or named none with r = 0 |
| `FdpPlacement.FrontierTags` | fdp_ftl.c:389-468 | after every run the open line of each handle is tagged with it and that of the collector with none |
| `FdpPlacement.WritePlaced` | fdp_ftl.c:1145-1180 | a page write that sets off no collection puts its page on a line of its handle and moves no other |
| `FdpPlacement.PlacedExactly` | fdp_ftl.c:1113-1166 | in every run without a collection every mapped page lies on a line of the handle of its latest accepted write |
| `FdpRotation.WriteRotates` | fdp_ftl.c:359-374 | a page write takes the lines it opens from the front of the free list and puts the line it frees at the end |
| `FdpRotation.LinesRotate` | fdp_ftl.c:301-374 | in every run the lines of a partition are opened in the order in which they became free |
| `FdpReplies.AddressableIff` | fdp_ftl.c:1107-1111 | a command is within the device exactly if every page that holds one of its sectors is |
| `FdpReplies.ReplyIs` | fdp_ftl.c:1107-1190 | success exactly for a command within the device whose handle exists and for which the buffer had room; an invalid field exactly for one within the device whose handle does not exist |
| `FdpReplies.CommandAnswered` | fdp_ftl.c:1074-1190 | after every run, success means that exactly the pages that hold the command's sectors read its data; any other reply leaves every page and HBMW, MBMW and MBE as they were |
| `FdpReplies.CommandCounted` | fdp_ftl.c:1135-1140 | HBMW grows by the bytes of the command's sectors on success and not otherwise |
| `FdpReplies.RunAttr` | fdp_ftl.c:1115-1129 | after every run a handle is reported used by the host exactly if some command within the device named it, handle 0 otherwise by the controller if some command named none, and every other unused |
| `FdpTheorems.FreeLinesSuffice` | fdp_ftl.c:284-299 | if GC starts at N + 1 free lines and every partition sees few enough distinct pages, every line rotation of every run finds a free line |
| `FdpConfig.FdpFreeLines` | fdp_ftl.c:552-560 | for the FDP threshold the bound is (tt_lines - 2(N+1)) * P distinct pages per partition, and (free slots) - credits >= (N+1)(P+1) throughout |
| `FdpConfig.ConvFreeLines` | conv_ftl.c:370-371 | the conventional FTL is the case of one host frontier and threshold 2, on commands whose directives it ignores |
| `FdpAccounting.RunAccounted` | fdp_ftl.c:1135-1180 | in every run HBMW is the accepted bytes, MBMW - HBMW is pgsz times the gc_write_page calls of the run, MBE is the line bytes times its completed collections, and programmed less erased pages are the pages not FREE |
| `FdpAccounting.CommandFill` | fdp_ftl.c:1083-1086 | a command's bytes are at most its pages' bytes, and equal exactly when it is page-aligned at both ends |
| `FdpAccounting.MediaBalance` | fdp_ftl.c:1135-1180 | MBMW - MBE is pgsz times the programmed pages exactly when all accepted commands are page-aligned; MBMW <= pgs_per_line * HBMW for them |
| `FtlSymmetry.SimWrite` | fdp_ftl.c:1145-1180 | one page write with its handle renamed keeps two renamed partitions renamed |
| `FdpSymmetry.HandlesAreSymmetric` | fdp_ftl.c:389-468 | permuting handle indices throughout a run permutes line ids and leaves HBMW, MBMW and MBE equal |
| `FdpSymmetry.SingleHandleIsBaseline` | fdp_ftl.c:1113-1129 | a run in which every command uses one handle has the statistics of the run without placement |
| `FdpFtl.Partition.constructor` | fdp_ftl.c:519-543 | the arrays of a fresh partition represent FtlModel.Init |
| `FdpFtl.Partition.InitTables` | fdp_ftl.c:487-512 | every mapping and reverse-map entry is unmapped |
| `FdpFtl.Partition.InitLines` | fdp_ftl.c:301-337 | every line is on the free list, in order |
| `FdpFtl.Partition.PrepareWritePointers` | fdp_ftl.c:389-407 | frontier i opens line i at its first page and tags it |
| `FdpFtl.Partition.MarkPageInvalid` | fdp_ftl.c:668-707 | on the arrays, exactly the state change of FtlModel.MarkInvalid |
| `FdpFtl.Partition.ProgramPage` | fdp_ftl.c:709-727 | on the arrays, exactly FtlModel.Program |
| `FdpFtl.Partition.NextSlot` | fdp_ftl.c:418-440 | the in-place increments compute Geometry.AdvanceSlot |
| `FdpFtl.Partition.AdvanceWritePointer` | fdp_ftl.c:409-468 | on the arrays, exactly FtlModel.Advance |
| `FdpFtl.Partition.AppendPage` | fdp_ftl.c:470-485 | on the arrays, exactly FtlModel.Append |
| `FdpFtl.Partition.GcWrite` | fdp_ftl.c:767-783 | on the arrays, exactly FtlModel.GcWritePage |
| `FdpFtl.Partition.CleanOneFlashPage` | fdp_ftl.c:847-891 | the count-then-copy loops do the page steps of the sweep, and no page they check is free |
| `FdpFtl.Partition.MarkBlockFree` | fdp_ftl.c:729-748 | the page loop does FtlModel.EraseBlock |
| `FdpFtl.Partition.SweepLine` | fdp_ftl.c:928-962 | the nested loops complete FtlModel.Sweep |
| `FdpFtl.Partition.SelectVictim` | fdp_ftl.c:804-824 | takes the top of the heap exactly when FtlModel.NoVictim does not hold |
| `FdpFtl.Partition.CollectGarbage` | fdp_ftl.c:904-967 | on the arrays, exactly FtlModel.DoGc |
| `FdpFtl.Partition.ConsumeCredit` | fdp_ftl.c:284-299 | on the fields, exactly FtlModel.SpendCredit |
| `FdpFtl.Partition.WritePage` | fdp_ftl.c:1150-1179 | on the arrays, exactly FtlModel.WritePage, and the invariant holds again |
| `FdpNamespace.Namespace.constructor` | fdp_ftl.c:562-607 | fresh partitions form FdpDevice.Start |
| `FdpNamespace.Namespace.WriteOne` | fdp_ftl.c:1150-1179 | one page write through the partition objects is FdpDevice.WriteAt; the other partitions are untouched |
| `FdpNamespace.Namespace.WriteLpns` | fdp_ftl.c:1145-1180 | the page loop computes FdpDevice.WriteRange |
| `FdpNamespace.Namespace.Write` | fdp_ftl.c:1074-1190 | the command computes FdpDevice.FdpWrite, reply included, and keeps the invariant of every partition |
| `ReadPath.SameFlashIff` | fdp_ftl.c:976-984 | the test holds exactly if both pages are in the same block and between the same multiples of pgs_per_flashpg |
| `ReadPath.ReadPartition` | fdp_ftl.c:1025-1066 | the coalescing loop covers the mapped pages of its stripe in order; each read is of one flash page of one block of the partition, and reads that follow each other are of different ones |
| `ReadPath.TouchedPages` | fdp_ftl.c:994-996 | the logical pages of a command are exactly those that hold one of its sectors |
| `ReadPath.FdpRead` | fdp_ftl.c:986-1072 | every mapped page that holds a sector of the command is read exactly once in its own partition; all pages of a read have its block and lie between f and f + 1 times pgs_per_flashpg for one f, and consecutive reads of a partition differ in block or f; the bytes read are pgsz times the mapped pages; a range beyond the device is refused |
| `FdpReading.ReadAfter` | fdp_ftl.c:986-1072 | after any run of write commands a read fetches exactly once every page that holds one of its sectors and was ever written, and nothing else |
| `ReadPath.OrderOnce` | fdp_ftl.c:1025-1031 | the nested loops visit every page of the range exactly once |
| `EventLog.RecordHolds` | fdp_ftl.c:68-76 | overwriting the slot at the head keeps the ring equal to the latest records |
| `EventLog.Log.IsEnabled` | fdp_ftl.c:57-66 | the search finds the type's enable bit; unknown types are disabled |
| `EventLog.Log.Emit` | fdp_ftl.c:51-77 | an event is recorded exactly when its type is enabled at that time |
| `EventLog.Log.GetLog` | fdp_ftl.c:142-155 | the log returns the latest min(count, 63) recorded events, newest first |
| `EventLog.Log.SetFeature` | fdp_ftl.c:180-200 | the mask is switched by the descriptors in order, and the result counts the supported ones |
| `EventLog.LastSwitchWins` | fdp_ftl.c:192-199 | a type ends up as the last descriptor that names it says, or as it was |
| `EventLog.Log.GetFeature` | fdp_ftl.c:164-178 | returns the number of supported types and, given a buffer, every type with its current setting |
| `FdpEvents.WritePageEmits` | fdp_ftl.c:914-921 | a page write reports the reclaim unit handle of the line it collects, if it collects one that has a handle, and nothing else |
| `FdpEvents.CmdEmits` | fdp_ftl.c:1113-1122 | a command emits exactly one invalid-placement event if its handle does not exist, otherwise the events of the collections its pages set off, in order |
| `FdpEvents.RunEmits` | fdp_ftl.c:1074-1190 | every run emits the events of its commands, in order |
| `FdpController.Controller.Write` | fdp_ftl.c:51-77 | of the events a command emits exactly those whose type is enabled are recorded |
| `FdpController.Controller.Session` | fdp_ftl.c:126-162 | after any sequence of write and Set Features commands the log page holds the latest 63 of the events that were emitted while enabled, newest first |
| `ChannelModel.ChargeFills` | channel_model.c:86-106 | a request fills slots in order: passed slots end full, later ones are untouched, no slot exceeds max_credits, it stops short only when the last slot is full, and the last slot it waits for grants something |
| `ChannelModel.ChargeConserves` | channel_model.c:86-106 | exactly the credits asked for, less those left over, are granted |
| `ChannelModel.MoveAgrees` | channel_model.c:43-57 | wherever the clock goes, the ring after the move holds what the grants it has kept leave of each slot |
| `ChannelModel.FaithfulForward` | channel_model.c:43-57 | these are the grants that were made if and only if the 32-bit slot gap does not wrap while grants lie beyond it |
| `ChannelModel.FaithfulBack` | channel_model.c:43-57 | after a clock that steps back, if and only if no grant lies ahead of it |
| `ChannelModel.StaleRing` | channel_model.c:43-44 | a new channel that grants slot 1 and then idles for 2^32 slots has a ring that disagrees with its grants |
| `ChannelModel.IdleTooLong` | channel_model.c:31-120 | on it a request waits one slot longer than on a channel that was never used |
| `ChannelModel.RequestSlot` | channel_model.c:70-77 | a request is charged from its own slot on exactly when its distance fits in 32 bits |
| `ChannelModel.Channel.constructor` | channel_model.c:16-29 | an empty ledger and a full ring of byte-sized entries, for any bandwidth |
| `ChannelModel.Channel.MoveTo` | channel_model.c:42-57 | for any clock, recycling the passed entries keeps every entry equal to what its slot has left |
| `ChannelModel.Channel.SpendFrom` | channel_model.c:79-106 | the ring-walking loop terminates and computes the ledger charge |
| `ChannelModel.Channel.Spend` | channel_model.c:79-112 | and keeps valid_len beyond every grant |
| `ChannelModel.UnitsHold` | channel_model.c:39 | the units are the least number of 128 bytes that holds the data, in 32 bits |
| `ChannelModel.AskedIs` | channel_model.c:80-81 | one credit per unit and those of the command |
| `ChannelModel.AcceptedIff` | channel_model.c:64-77 | a request is charged exactly if it is not in the past and its slot is within the ring |
| `ChannelModel.AnswerTime` | channel_model.c:114-119 | the answer is xfer_lat times the units after the request, exactly if the slots waited do not exceed those that its credits fill at full rate; otherwise one slot later for each slot beyond |
| `ChannelModel.IdleExact` | channel_model.c:114-119 | on a channel with nothing granted from its slot on a request is answered with exactly its transfer time |
| `ChannelModel.ServedLater` | channel_model.c:31-120 | an answer is never before the request, for a charged request at least its transfer time after it, and for any other the request time itself |
| `ChannelModel.ServedCharges` | channel_model.c:79-112 | a charged request takes all its credits from the channel unless the ring is used up to its end; any other takes none |
| `ChannelModel.TransferTime` | channel_model.c:31-120 | on a new channel the answer is exactly the transfer time |
| `ChannelModel.Channel.Request` | channel_model.c:31-120 | the ring operation computes ChannelModel.Served: ledger, clock, valid_len and answer |
| `NandTiming.CarriedCharges` | ssd.c:403-418 | a piece that is charged takes its credits from the channel and with DMA from the PCIe link, and takes at least the transfer times |
| `NandTiming.CarriedTakes` | ssd.c:403-418 | pieces take at least their transfer times over the channel, one after the other, and the last one then over the link |
| `NandTiming.Ssd.AdvanceNand` | ssd.c:362-454 | an operation starts when LUN and command are ready and keeps the LUN busy to its end, so the schedule of every LUN stays serial; a write ends with the channel's answer for its data plus the program time, a read senses and then moves its pieces; channel and link are charged for exactly the data moved over them, and no other LUN or channel changes |
| `NandTiming.Ssd.Transfer` | ssd.c:403-418 | the loop carries pieces of at most max_ch_xfer_size that add up to the data, all but the last whole, each over the channel when the one before has left it and with DMA from there over the link |
| `NandTiming.Ssd.NextIdleTime` | ssd.c:456-472 | the greatest of the clock and all availability times |
| `NandTiming.Flush` | fdp_ftl.c:1192-1209 | the target is not before the end of any earlier operation of any partition, and no later than needed |
| `IoWorker.SortedLater` | io.c:266-274 | moving latest_nsecs forward keeps the list ordered |
| `IoWorker.SortedEarlierFails` | io.c:266-274 | moving it back can break the order |
| `IoWorker.InsertKeeps` | io.c:248-292 | inserting where the search stops keeps both chains and the order |
| `IoWorker.EnqueueKeeps` | io.c:294-388 | after an enqueue free and in-flight slots again partition the array and the worker's cursor is safe |
| `IoWorker.ReclaimKeeps` | io.c:420-437 | splicing a reclaimed prefix behind the free list keeps all chains and the partition |
| `IoWorker.Worker.constructor` | io.c:751-762 | all slots free, none in flight |
| `IoWorker.Worker.FindPlace` | io.c:264-274 | the backward search stops behind the last request that is due by the clock or no later than the new one |
| `IoWorker.Worker.InsertReq` | io.c:248-292 | links the request at that place |
| `IoWorker.Worker.Enqueue` | io.c:294-388 | hands out the first free slot, never one in flight, unless it is the only one left; puts it behind every request that is due no later; keeps the partition and the order |
| `IoWorker.Worker.Reclaim` | io.c:390-439 | frees the longest prefix of requests that are completed, copied and due, and nothing else |
| `IoWorker.Worker.StartPass` | io.c:616-622 | the worker starts at the head when it has come to the end |
| `IoWorker.PhaseKept` | io.c:624-692 | a request that the worker has found outstanding stays in flight through any step of the dispatcher |
| `IoWorker.Worker.Look` | io.c:624-632 | the slot under the cursor is an outstanding request in flight or is left alone; a clock that moves forward keeps the order |
| `IoWorker.Worker.Copy` | io.c:634-665 | the worker copies only a request in flight |
| `IoWorker.Worker.Complete` | io.c:667-692 | a request is completed exactly when it is due at the clock read before, only in flight, and only after it was copied |
| `IoWorker.Worker.Step` | io.c:694-695 | wherever the dispatcher has moved the slot under it, the worker's next position is safe |
| `Zns.CountUpdate` | zns_ftl.h:53-87 | how the numbers of opened and active zones change with one zone |
| `Zns.ZoneGrows` | zns_read_write.c:17-39 | advancing the write pointer keeps the accepted LBAs equal to [zslba, wp) |
| `Zns.WriteFits` | zns_read_write.c:12-15 | a write at the write pointer that passes the boundary check fits in the zone |
| `Zns.ZnsFtl.StatusIs` | zns_read_write.c:108-169 | each status exactly when: whole write units, inside one zone, at the write pointer, and the open and active resources that the zone needs |
| `Zns.ZnsFtl.constructor` | zns_ftl.c:10-82 | all zones empty, no resource in use |
| `Zns.ZnsFtl.Close` | zns_mgmt_send.c:7-29 | accepted exactly for opened and closed zones; counters stay the numbers of opened and active zones |
| `Zns.ZnsFtl.Finish` | zns_mgmt_send.c:31-64 | the zone becomes full and gives its resources back; the write pointer stays |
| `Zns.ZnsFtl.Open` | zns_mgmt_send.c:66-106 | succeeds exactly when the zone may be opened and the resources it needs are free, and the status names the resource that is missing |
| `Zns.ZnsFtl.Reset` | zns_mgmt_send.c:108-156 | the zone is empty again, with no accepted LBA and no resource |
| `Zns.ZnsFtl.Send` | zns_mgmt_send.c:230-258 | only the addressed zone changes, as the action says, and the action is refused exactly when the zone or the limits forbid it |
| `Zns.OpenNext` | zns_mgmt_send.c:272-277 | opening one more zone keeps the resources handed out first come, first served |
| `Zns.ZnsFtl.SendAll` | zns_mgmt_send.c:272-277 | reset, finish and close of all zones leave no zone behind and return the resources; open of all zones opens closed and empty ones in order, each unless no resource it needs is left, and none is left at the end if one was refused |
| `Zns.ZnsFtl.OpenForWrite` | zns_read_write.c:127-169 | a write opens an empty or closed zone exactly when the resources are free |
| `Zns.ZnsFtl.IncreaseWritePointer` | zns_read_write.c:17-39 | the zone fills exactly at its capacity, which frees its resources; the overrun branch is never taken; what each zone has taken stays a whole number of write units |
| `Zns.ZnsFtl.Write` | zns_read_write.c:64-171 | accepted writes and appends extend the zone at its write pointer by LBAs not accepted before; refused ones change nothing |
| `Zns.DiesExistIff` | zns_read_write.c:41-62 | on a device with nr_zones zones that span all their dies, every page of every zone is given an existing die exactly when dies_per_zone divides the number of dies or nr_zones is at most their quotient |
| `Zns.DiesTakeTurns` | zns_read_write.c:41-62 | the pages of a one-shot page share a die, and dies_per_zone one-shot pages that follow each other are on different ones |
| `KvTable.LinkedOk` | kv_ftl.c:159-162 | linking a new entry behind a chain's end keeps all chains acyclic |
| `KvTable.ReachKept` | kv_ftl.c:222-226 | linking cuts no chain, also after chains have coalesced |
| `KvTable.ReachExtended` | kv_ftl.c:222-226 | the new entry is reachable from every slot that led to its predecessor |
| `KvTable.ProbeEndsIff` | kv_ftl.c:180-185 | the probing loop ends exactly when the table has a free slot |
| `KvTable.RoomIff` | kv_ftl.c:180-185 | the table has a free slot exactly when it holds fewer keys than slots |
| `KvTable.InsertKeeps` | kv_ftl.c:200-232 | storing a new key keeps every key reachable from its hash slot and adds just that key to the map |
| `KvTable.Table.constructor` | kv_ftl.c:1049-1056 | an empty map |
| `KvTable.Table.Find` | kv_ftl.c:337-360 | the chain walk finds a key exactly when it is stored |
| `KvTable.Table.Get` | kv_ftl.c:320-377 | lookup agrees with the finite map |
| `KvTable.Table.FindNextSlot` | kv_ftl.c:164-198 | finds the end of the chain and, since the table has room, terminates at a free slot |
| `KvTable.Table.NewEntry` | kv_ftl.c:200-232 | the map gains exactly the new key |
| `KvTable.Table.UpdateEntry` | kv_ftl.c:268-318 | the map changes only the length of that key, if present |
| `KvTable.Table.Store` | kv_ftl.c:519-540 | insert or update as the store command does |
| `KvTable.StoredKeys` | kv_ftl.c:519-540 | from an empty table on a key is stored exactly if some store named it |
| `KvTable.StoredFirst` | kv_ftl.c:519-540 | it keeps the location of its first store, and the length of that if it was large |
| `KvTable.StoredLast` | kv_ftl.c:534-536 | any other has the length of the last small value stored for it |

## Left out

- 64-bit counters and times are unbounded: HBMW, MBMW, MBE and nanosecond times do not wrap.
- Timing of FTL operations: `FtlModel` leaves out the NAND commands that the FTL issues; `NandTiming` models what such a command does to its LUN.
- NandTiming.Ssd.AdvanceNand: the clock readings are inputs, one per request; sizes of reads are positive and the channels have some bandwidth.
- ChannelModel.Channel.Request: an accepted request needs max_credits to be at least 1, because the source divides by it.
- IoWorker.Worker.Enqueue: an enqueue is one atomic step; a worker that reads the slot between the source's individual stores is not modelled.
- IoWorker.Worker.Complete: the worker's reads and writes of one slot are separate steps, but each is atomic and seen at once; weaker memory orders are not modelled.
- FdpController.Controller.Write: the time stamps of events are inputs, and emissions are recorded at the end of the command that makes them; one dispatcher thread serves both commands and Set Features.
- The worker's copies, completion queue entries and interrupts.
- Zns.ZnsFtl.Open: the zone random write area is left out (every shipped configuration sets its sizes to 0), and so is zone management receive.
- Zns.ZnsFtl.Write: the write buffer is an accept-or-refuse input, the address is assumed to lie in the namespace (the source does not check), and the flash timing of a zone write is left out.
- KvTable.Table.Store: keys have one fixed length; delete, iterators, value bytes and the value allocators are left out.  A new key needs a free slot.
- KvTable.Table.FindNextSlot: the table must have room, because without it the source's loop does not end (`KvTable.ProbeEndsIff`).
- KvTable.Table.NewEntry: the same.
- ReadPath.FdpRead: mapped entries are taken to be valid addresses, as the FTL invariant guarantees; completion times are left out.
- FdpNamespace.Namespace.Write: the write buffer is an accept-or-refuse input; early completion and the write latency are left out.
- PriorityQueue.Queue.Insert: the array must have a free slot, because without one the source writes past its end; `FtlReady.HeapFits` shows that the FTL never gets there.
- PriorityQueue.Queue: pqueue_remove, printing and the validity check, which nothing calls.
- clean_one_block, gc_read_page, should_gc: unused in the source.
- Multi-plane LUNs: one plane per LUN, as every configuration has.
- SsdParams.InitParams: over-provisioning and the exported size use floating point and are left out.
- PCI, BARs, DMA, PRP lists, procfs, admin identify and log layouts, simple_ftl, append_only, bitmap: plumbing that would add only easy members.
