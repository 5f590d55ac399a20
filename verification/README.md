# A verified model of the PRAID parity array

PRAID is a RAID-4 block device. A block driver stripes requests over data disks; a host driver and a
simulated PCIe device keep a parity disk up to date through a shared register block (the BAR) and three
adjacent 4 KiB staging chunks: O for old data, N for new data, V for parity. This project models that
code in Dafny and proves what it is for: in whatever order the actors run, the parity disk ends up as the
exclusive-or of the data disks, and the data disks end up holding what was written.

Run `dafny verify dfyconfig.toml` in this directory to verify everything.

## How the model is laid out

| files | what they model |
|---|---|
| Bytes | bytes as numbers below 256, bitwise exclusive-or, little-endian 64-bit words, folds of exclusive-or |
| Parity | a verify task and its effect on the parity disk; task orders; incremental against full parity |
| Engine, EngineCode | the steps of worker and dispatcher as functions; the same code as a class over one shared array |
| Segments, BioWalk, BioData | page segments to verify tasks; the two bios, their iterators, and the end-io that walks them; the data an iterator stands for |
| AddressMap, Split | the address macros and the capacity; the split loop; the striped array as one flat disk |
| Machine | the asynchronous protocol: host, kworkers, dispatcher, interrupt handler, in any interleaving |
| Invariant, Ledger, Capture, Serial, Contents | what every single step of that machine keeps |
| ByteView, ByteSteps | the machine seen at one byte position |
| Theorems, Progress, Draining | what follows for whole runs: parity, deadlock freedom, coming to rest |
| Freedom, Orders | what the machine can do: orders of posting, of landing and of disk completions, all of them reachable |
| Overlap | exactly which submissions may meet data that is still in flight |
| Completion | the request's own completion, joined with a run of the machine: not too early, and always within reach |
| FlatArray, Requests | split loop, address map and protocol stacked: the array is one flat disk |

The source's imperative files are modelled twice where a state machine needs it. `EngineCode.ParityEngine`,
`BioWalk.Driver` and `Split.SubmitBio` are code with loops and fields, each proved equal to a function.
`Machine` takes the same functions one statement at a time, so that any other actor can step in between:
old-data reads, data landings and parity writes go sector by sector, the worker's five stores and the
increment of `io_num` are separate steps, and so are the dispatcher's claim, its two register loads, its
read of the parity window, every turn of the word loop, the write and the interrupt. A run is any list of
enabled steps from a start state, so a theorem about runs is a theorem about every interleaving and every
order in which disks finish their work. `Freedom` and `Orders` show the other side: that the machine
really has these orders, so that the theorems are not about a machine that serialises more than the code.
The fields `prev`, `landed`, `applied`, `log`, `claimed` and `holder`
record history for the theorems; no value any step computes for disks, chunks or registers depends on `prev` or
`applied`.

## Conditions the theorems name

- `Init`: the data disks and the parity disk start consistent (there is no initial resync in the source),
  the BAR is cleared (pci.c:330) and the semaphore is 1 (pciedrv.c:241). The chunks may hold anything.
- `Careful`: a write is submitted only while no write whose data is still on its way to the same disk
  covers one of its sectors. A write whose data has landed may be overwritten at once, its parity task
  applied or not. `Overlap.SubmitExactly` says what a careless submission costs. Theorems that need this
  say so; `ExactlyOnce`, `TokenConservation`, `FrozenStaging`, `SerialEquivalence`, `Discrepancy`,
  `QuiescentExactly` and the progress results do without it.
- A caller's page keeps its contents from the submission until the write has completed. The end-io copies
  the page for the verify task (pciedrv.c:80) and the data write reads it again later (pciedrv.c:139);
  `Machine` has one page for both. `Parity.UnstablePageExactly` says what a page that changes in between does.
- A piece has segments of whole sectors, each inside one page (the `BUG_ON` at pciedrv.c:156 and the block
  layer promise the second). `Segments.StartsOnDataExactly` says when the first is really needed.
- There is at least one data disk, and a disk is a whole number of chunks. main.c:89-161 checks neither;
  `AddressMap.MapFitsExactly` says exactly which sizes work.
- Allocation, `kmap` and disk I/O succeed, no interrupt is spurious, memory is sequentially consistent, and
  both mappings of the staging area show the same bytes.

## Where the code does less than its documentation says

1. **The end-io of a split write.** The read bio has one entry per segment of the piece, counted from
   zero. pciedrv.c:115 compares its entry count with the whole vector of the write bio, and pciedrv.c:120
   walks it with the write bio's iterator. `BioWalk.EndIoExactly` proves that tasks are made and the data
   write released if and only if that iterator stands at the front of its vector and covers every entry.
   Otherwise it queues nothing at all. After `bio_split` the parent's iterator has moved on, so the last
   piece of a split write is refused, or stops at a `BUG_ON`, and neither its data nor its parity is ever
   written (`SplitParentNeverReleased`, `TwoPageWriteFails`), and this is so for every cut of every write
   (`BioData.SplitLosesRest`). `Machine` therefore takes a piece as its own
   list of segments (page, offset, length) counted from zero, which is what the repository's README.md
   (lines 23-29) describes.
2. **Capacity.** block.c:102-104 divides the total byte size into sectors, the map needs whole chunks per
   disk. The map stays on the disks if and only if there is one disk, or (`per_size` mod 4096) times the
   number of disks is below 512 (`AddressMap.MapFitsExactly`).
3. **Counter wrap.** pci.c:160 compares two 32-bit counters with `<=`. A system that can take no further
   step is quiet if and only if fewer than 2^32 segments were ever submitted
   (`Progress.BlockedExactly`, `Progress.DrainsExactly`), and the other case does happen: from every start
   state with a sector to write, 2^32 careful writes, one after another, end in a state where nothing moves
   and the last task is never applied (`Draining.WedgeHappens`).
4. **Overlapping writes in flight.** Nothing in the driver orders them. After a careful run, a submission
   keeps byte b consistent under every schedule if and only if, at b, it is clear of all pending data, or
   both it and the data pending there bring what is on the disk already (`Overlap.SubmitExactly`). If one of
   them brings something new, there is a schedule that breaks the byte: both read the old data, that one
   lands, then the other.
5. **Segments that are not whole sectors.** pciedrv.c:130 drops the odd bytes. Every task sits on its own
   data if and only if all segments but the last are whole sectors (`Segments.StartsOnDataExactly`).
6. **Pages that change in flight.** When a page changes after the end-io has copied it, a byte of the write
   stays consistent if and only if that byte of the page has not changed (`Parity.UnstablePageExactly`).

## Model

| member | source | states |
|---|---|---|
| FlatArray.ArrayIsFlatDisk | block.c:12-58 | When the submissions of a careful run are the mapped pieces of a list of requests, a quiet state seen through the address map holds what one flat disk holds after those requests, also after any one member disk has been lost and rebuilt from the others. |
| Requests.RequestsServed | block.c:5-62 | Every list of requests of fewer than 2^32 pieces has such a run: careful, submitting just its mapped pieces, coming to rest as that flat disk. |
| Overlap.SubmitExactly | pciedrv.c:109-177 | After any careful run, and below 2^32 segments, a submission keeps byte b consistent under every schedule if and only if there it is clear of all pending data, or both it and the data pending bring what is on the disk. |
| Overlap.TwoWrites | pciedrv.c:109-177 | Of two one-sector writes submitted back to back, just the bytes that both leave alone are safe. |
| Completion.CompletionOrdering | block.c:45-58 | Whatever else runs beside it, once the original request has completed, every byte of every array sector it writes has been landed on that sector's disk by the request's own pieces, and every verify task of those pieces is at least queued. |
| Completion.CompletesExactly | block.c:45-58 | Under the bio_chain contract the request completes at most once, and has completed if and only if every piece has finished, also when pieces finish while the loop still cuts. |
| Completion.LandedStays | pciedrv.c:139 | No step of any actor undoes the landing of a piece. |
| Completion.ReportsComplete | block.c:45-58 | From every joint state in which all pieces are submitted and landed, reports of pieces alone, and nothing else, complete the request, once. |
| Completion.RequestCompletes | block.c:45-58 | Every joint run, whatever else is on its way, can be continued until the request has completed, without any step of the engine. |
| Completion.ArrayWriteCompletes | block.c:12-58 | So can every write of array sectors with any data, some of its pieces under way and the others not. |
| Theorems.ExactDiscrepancy | pciedrv.c:31-140 | In every reachable state of a careful run, parity xor all data disks at a byte is the xor of (old xor new) over exactly those segments for which just one of "data landed" and "parity applied" has happened there. |
| Theorems.Discrepancy | pci.c:156-194 | The same for any submissions, overlapping ones too: the difference is the xor of each segment's applied change and landed change. |
| Theorems.CarefulDiscrepancy | pciedrv.c:109-140 | In careful runs a segment's share is (old xor new) while it is half done at a byte, and zero otherwise. |
| Freedom.AnyPostingOrder | pciedrv.c:31-58 | From every reachable state below 2^32 segments the queued tasks can be posted in any order at all and applied completely, by steps of the engine only: data disks, pieces, pages and what has landed stay as they are. |
| Freedom.AnyPieceLands | pciedrv.c:109-140 | From every reachable state any one piece can land by steps of its own, with no help from workers, dispatcher, interrupts or other pieces. |
| Freedom.AnyTimeSubmits | block.c:49-54 | Any piece of whole sectors on a data disk can be submitted in any reachable state. |
| Freedom.AnyStart | pciedrv.c:241 | A cleared BAR and a free semaphore over any staging contents and any consistent disks are a start state. |
| Freedom.DisksInAnyOrder | pciedrv.c:109-140 | Old-data reads, landings and parity writes that are under way can finish in any order. |
| Orders.EitherHalfFirst | pciedrv.c:80-89 | Every queued task whose data has not begun to land can be applied completely with no data landed, and can be left unapplied with all its data landed: both halves of the discrepancy are reached, at every byte. |
| Orders.AnyOrderIsConsistent | pciedrv.c:31-50 | Once all data of a careful run has landed, every order of the queued tasks is the posting order of a continuation, and each of them comes to rest with parity consistent and the data as it is. |
| Orders.TwoInReverse | pciedrv.c:80-89 | Two writes of one sector whose tasks are posted in reverse order rest consistent, with the second write on the disk. |
| Theorems.QuiescentConsistency | pciedrv.c:31-140 | When nothing is in flight, the parity disk is the xor of the data disks at every byte. |
| Theorems.QuiescentRecovery | block.c:49-54 | Then any one data disk is the xor of parity and the other data disks. |
| Theorems.QuiescentExactly | pciedrv.c:109-140 | For any submissions, a quiet system is consistent at a byte if and only if the differences between old pages and replaced data cancel out there. |
| Contents.QuiescentContents | pciedrv.c:109-177 | However the actors interleave, a quiet system's data disks hold the submitted pieces as if each had been written at once, in submission order. |
| Contents.DisksFollowLandings | pciedrv.c:133-139 | In every reachable state of a careful run each data byte is that of the latest submitted segment that has landed on it. |
| Contents.UnitsFollowSubmissions | pciedrv.c:120-131 | The segments of a run write exactly the bytes of the pieces submitted, the last submitted piece winning. |
| Theorems.TokenConservation | pciedrv.c:31-50 | Exactly one of: semaphore free, one worker staging, one task posted, dispatcher computing, interrupt pending. io_num minus io_done modulo 2^32 is the number of posted unclaimed tasks, and below 2^32 posts the dispatcher's test sees exactly that. |
| Theorems.FrozenStaging | pciedrv.c:42-50 | From the increment of io_num to the interrupt no step of any actor changes O, N, offset, size or sector_sta, and only the dispatcher changes V and the parity disk. |
| Theorems.FetchedParityStands | pci.c:174-191 | While the word loop runs, the parity bytes fetched and not yet mixed are still what the parity disk holds. |
| Theorems.ExactlyOnce | pciedrv.c:60-94 | The posted tasks are exactly the handed-over ones, each once; in the whole run every sector of every posted task but the loaded one has been written to the parity disk exactly once, no sector twice, none of an unposted task. |
| Theorems.WrittenOnce | pci.c:188-191 | How often the dispatcher has written a sector of a task is 1 if the sector is marked as applied and 0 if not. |
| Theorems.SerialEquivalence | pci.c:160-193 | Whenever no task is loaded, the parity disk is the starting one with the posted tasks applied atomically, in posting order. |
| Theorems.OldDataCapture | pciedrv.c:80-81 | Just before a sector's new data lands, the data disk holds what the task calls old. |
| Theorems.QueuedBeforeLanded | pciedrv.c:129-139 | No data of a piece lands before every verify task of that piece is queued. |
| Theorems.RunInvariant | pciedrv.c:31-194 | Every reachable state satisfies the protocol invariant, the parity and data ledgers, and the serial view. |
| Theorems.CarefulInvariant | pciedrv.c:109-140 | Every reachable state of a careful run has pending writes apart, unlanded snapshots still on the disk and landed snapshots true. |
| Invariant.StepKeeps | pciedrv.c:31-194 | Every step of every actor keeps the structure of pieces, the token, the log of posts, the counters and the meaning of what is staged, fetched and half written. |
| Invariant.DispatchKeeps | pci.c:166-191 | The dispatcher's loads, its read of the parity window, each turn of the word loop and the hand-over to the write keep the invariant. |
| Ledger.StepLedgers | pci.c:156-194 | Every step keeps both ledgers: parity is its start xor every applied change once, the stripe of data its start xor every landed change once. |
| Ledger.WriteSectorXors | pci.c:188-191 | Writing back one parity sector is an atomic xor of that sector with the old and new bytes of the claimed task, and nothing else. |
| Capture.StepCaptures | pciedrv.c:120-139 | Every step keeps the captured old data true, as long as submissions stay clear of pending data. |
| Capture.ReleasedMeansRead | pciedrv.c:133-139 | A released write has all its old sectors read and its tasks queued. |
| ByteSteps.StepEffect | pciedrv.c:31-194 | At any byte, every step but a submission reads the old byte for one segment that has yet to land, lands one segment that has read, or changes nothing. |
| ByteView.TwoLandings | pciedrv.c:120-139 | Of two segments that have both read a byte, the second to land holds a snapshot of what the first has replaced. |
| ByteView.AfterSound | pciedrv.c:80-81 | Snapshots that are true, with rivals that bring nothing new, stay so whatever is read or lands. |
| Serial.StepSerial | pci.c:160-193 | Every step keeps the parity disk equal to a serial application of the finished tasks, plus the sectors written so far of the loaded one. |
| Progress.BlockedExactly | device.c:22-26 | Without a new submission the system is stuck if and only if it is quiet or its last post wrapped io_num to zero. |
| Progress.DrainsExactly | pci.c:160-166 | A stuck system is quiet if and only if fewer than 2^32 segments were ever submitted. |
| Draining.Drain | device.c:22-26 | Every run can be continued, without submissions, to a state where nothing moves. |
| Progress.DrainLength | device.c:22-26 | And no continuation without submissions is longer than the measure of the state it starts in, so every schedule comes to such a state. |
| Draining.WedgeHappens | pci.c:160-162 | From every start state with a sector to write, 2^32 careful writes, each run to its end, leave a state that is stuck and not quiet. |
| Progress.StepDecreases | pciedrv.c:31-194 | Every step other than a submission strictly decreases a measure over segments, pieces, dispatcher and interrupt. |
| Progress.ClaimedBound | pci.c:160-166 | The dispatcher never claims a 2^32-th task. |
| Engine.StageAndDispatchAppliesTask | pciedrv.c:31-58 | A worker's run followed by the dispatcher's applies exactly that task to the parity disk and raises one interrupt, whatever the staging area held. |
| Engine.StaleStagingIndependence | pci.c:120-144 | Two engines that agree on the parity disk alone end with the same parity disk, changed only inside the task's own sectors. |
| Engine.WordLoopIsByteXor | pci.c:179-186 | The word loop leaves parity xor old xor new in every byte of the window and every other byte of V alone. |
| Engine.WordStepIsXorWord | pci.c:180-185 | Three 64-bit loads, two xors and a store are a byte-wise xor of the eight bytes. |
| Engine.MixedWindow | pci.c:174-191 | Fetching a window, mixing it and writing it back changes each parity byte inside by the staged old and new bytes at the matching page position, and none outside. |
| Engine.MixedByte | pci.c:168-191 | With the task's pages staged, the byte written back is the old parity xor the task's change. |
| Engine.DispatchedByte | pci.c:166-191 | Whatever window the registers name, a dispatcher's run leaves parity xor O xor N at each byte inside and the old parity outside, raises one interrupt, counts io_done up and leaves O, N and the semaphore alone. |
| Engine.CopyToBuffer | pciedrv.h:28-39 | Byte i of the chunk becomes byte i of the page inside the window and stays what it was before and behind it. |
| Engine.ValidTaskInBounds | pci.c:168-174 | A task of whole sectors inside one page keeps the word loop inside a chunk and covers the window without a remainder. |
| Bytes.WordXorIsByteXor | pciev.h:28 | The xor of two little-endian words is the word of the byte-wise xors. |
| Bytes.StoreOfLoad | pciev.h:28 | Storing a loaded word gives back the bytes it was loaded from. |
| EngineCode.SpliceInChunk | pciev.h:24-26 | A copy inside one of the three adjacent chunks leaves the other two untouched. |
| EngineCode.ParityEngine.constructor | pciedrv.c:241 | A cleared BAR and a free semaphore over chunks that keep what they held. |
| EngineCode.ParityEngine.CopyPageToBuffer | pciedrv.h:28-39 | Each byte of the window comes from the same place of the page into chunk O or N; every other byte of the staging area, in front of the window too, stands. |
| EngineCode.ParityEngine.DoVerifyWork | pciedrv.c:37-50 | Once the semaphore is taken, the windows of O and N hold the old and new page's bytes and every other staged byte stands; the three registers name the task, io_num counts up modulo 2^32, all as the worker's steps in a row. |
| EngineCode.ParityEngine.ReadBio | pci.c:124-144 | The parity sectors arrive in the window of V; nothing else changes. |
| EngineCode.ParityEngine.WriteBio | pci.c:120-139 | The window of V arrives on the parity sectors; nothing else changes. |
| EngineCode.ParityEngine.XorOneWord | pci.c:180-185 | One turn of the loop changes eight bytes of V by the bytes of O and N; nothing else changes. |
| EngineCode.ParityEngine.XorLoop | pci.c:179-186 | The loop over the words of the window equals the function whose bytes WordLoopIsByteXor gives. |
| EngineCode.ParityEngine.CalcXorSingle | pci.c:156-194 | A poll without work changes nothing; one with work claims, reads, mixes, writes and interrupts. |
| EngineCode.ParityEngine.Interrupt | pciedrv.c:188-194 | The handler gives the semaphore back. |
| EngineCode.ParityEngine.RunTask | pciedrv.c:31-58 | One task through worker, dispatcher and handler applies exactly that task and returns the token. |
| Parity.ScheduleIndependence | pciedrv.c:80-89 | Every order of the same tasks leaves the same parity disk. |
| Parity.Telescoping | pci.c:179-191 | Back-to-back writes of a byte change parity by (first old xor last new), in whatever order their tasks are applied. |
| Parity.IncrementalStep | pci.c:179-186 | From a consistent stripe, one task's change gives the parity of a full recompute. |
| Parity.IncrementalRefinesFull | pci.c:211-220 | The same for any sequence of writes, any number of disks and any order of the tasks. |
| Parity.Recover | pci.c:211-220 | In a consistent array a data disk is the xor of parity and the other data disks. |
| Parity.UnstablePageExactly | pciedrv.c:80-81 | With the task made from one copy of the page and the data written from a later one, a byte is consistent if and only if the two copies agree there. |
| Segments.Tiling | pciedrv.c:113-131 | Every byte of a piece is covered by exactly one of its tasks, which pairs the new, old and parity byte of that one array position. |
| Segments.StartsOnDataExactly | pciedrv.c:129-130 | Every task sits on its own data if and only if all segments but the last are whole sectors. |
| Segments.TasksInside | pciedrv.c:113-131 | The tasks stay inside the piece's sector range. |
| Segments.TasksApart | pciedrv.c:113-131 | The tasks of a piece are in order and never overlap. |
| BioWalk.EndIoExactly | pciedrv.c:109-140 | The end-io makes the piece's tasks and releases the write if and only if the write bio's iterator is at the front of its vector and runs through every entry; otherwise it queues nothing. |
| BioWalk.SplitParentNeverReleased | pciedrv.c:115-120 | A write whose iterator has moved off the front is never released, and no task of it is queued. |
| BioWalk.TwoPageWriteFails | pciedrv.c:115-118 | A two-page write cut after the first page: its second piece is refused. |
| BioWalk.WalkPairs | pciedrv.c:120-131 | From matching positions the walk makes one task for each remaining segment, old page with new page. |
| BioData.WalkExactly | pciedrv.c:120-131 | For any two well-formed iterators the walk makes the tasks of the segments that agree in length and offset, up to the first that do not, and ends well if and only if one bio runs out before such a pair. |
| BioData.BioBytes | pciedrv.c:155-166 | The segments of a bio hold exactly the bytes of its vector from the iterator's position on, also when it stands inside an entry. |
| BioData.SegmentPlace | pciedrv.c:155-166 | Each segment lies on its entry's page at the entry's offset, the first one behind the bytes already done, and all but the last run to the end of their entry. |
| BioData.SplitConserves | block.c:24-26 | What bio_split cuts off and what it leaves make up the data of the bio, in order, and the parent's sector moves on by the cut. |
| BioData.SplitLosesRest | pciedrv.c:115-120 | Of every write that is cut, wherever the cut, the part behind is refused by the end-io: never released, no task queued. |
| BioWalk.Driver.SubmitVerify | pciedrv.c:142-177 | The read bio starts at the write's sector and has one new page for each segment of the iterator (BioBytes and SegmentPlace say which those are), of the same offset and length. |
| BioWalk.Driver.ReadEndIo | pciedrv.c:109-140 | The loop over both iterators queues exactly the tasks of the specified walk, up to a BUG_ON if it meets one, and submits the write last, or not at all. |
| AddressMap.MapBijection | block.h:17-22 | With whole chunks the map is one-to-one from the array onto all places of the disks: each parity sector covers one sector of every disk. |
| AddressMap.MapFitsExactly | block.c:102-104 | The map stays on the disks if and only if there is one disk or the odd bytes of all disks make less than a sector. |
| AddressMap.OddSectorOutside | block.c:102-104 | Otherwise the sector just behind the last whole stripe falls off its disk. |
| AddressMap.MapInverse | block.h:17-22 | The place of a sector determines the sector. |
| AddressMap.InverseMap | block.h:17-22 | Every place on a disk is the place of the sector SectorAt names. |
| AddressMap.MapArithmetic | block.h:17-22 | The shifts and masks are division and remainder. |
| Split.SubmitBio | block.c:12-58 | The loop that cuts and retargets the bio in place submits exactly the specified pieces, the bio itself last, with one chained child for every other. |
| Split.PiecesTile | block.c:14-43 | The pieces are non-empty and in order, cover the request without gap or overlap, and each lies in one chunk, in order on one disk. |
| Split.PieceCount | block.c:14-22 | A request is cut into one piece for each chunk it touches. |
| Split.WriteIsFlat | block.c:39-54 | A split and mapped write changes exactly its own range of the flat disk, to its own data. |
| Split.ReadIsFlat | block.c:39-54 | A split and mapped read returns exactly its own range of the flat disk. |
| Split.ReadSectors | block.c:39-54 | Sector i of a read is the sector of the disk and place that the map gives for array sector sta + i. |
| Split.WrittenSectors | block.c:39-54 | After a write, the mapped place of any array sector holds the sector written to it, or what it held if the write does not cover it. |
| Split.ReadAfterWrite | block.c:39-54 | A read right after a write of the same range returns the data written. |
| Split.StripedRefinesFlat | block.c:12-58 | Any sequence of requests reads the same data and leaves the same contents as on one flat disk. |
| Split.StripedAnswers | block.c:12-58 | In any sequence of requests, each sector a read returns is that of the last write before it that covers the sector, or what its mapped place held at the start. |
| Split.StripedHolds | block.c:12-58 | At the end each mapped place holds the sector of the last write that covers it, or what it held at the start. |
| Split.WholeChunksMakeArray | block.c:102-104 | Disks of whole chunks hold exactly the device's capacity, each a whole number of chunks of sectors. |

## Left out

- Spurious or lost interrupts and the choice between MSI and INTx: one count of pending interrupts stands for delivery.
- PCI configuration space, capability lists, probe and remove, memory mapping, gendisk set-up, geometry, open and release.
- Failure paths: failed allocation or mapping, the branch at pciedrv.c:42-44 that gives the semaphore back and posts all the same, the interrupted semaphore wait at pciedrv.c:37-40, and an I/O error in the dispatcher (pci.c:174-177 and 188-191), after which the token is never given back.
- Page reference counts, page leaks and the freeing of bios and work items.
- Kernel bio internals: page merging, cloned bios' entry counts and the iterator's bounds warnings. An iterator that leaves its vector counts as a bug; bio_split and bio_chain are taken at their documented word.
- Weak memory ordering, cache attributes and kernel scheduling: steps interleave on one memory.
- Wrap-around of the 64-bit sector numbers, offsets and sizes: they are natural numbers. Only io_num, io_done and the words of the word loop have a width.
- Data reads that run beside writes in the protocol machine: reads are covered only in Split, on completed requests.
- Failure of a single data disk while tasks are pending: recovery is stated for quiet systems.
- The unused macros at block.h:18, 23 and 24, pciev_proc_bars, the biotest and readtest modules, the shell scripts, logging and the duplicate header nraid.h.
- Caller's pages that change between submission and completion: the protocol machine takes them as stable.
- Theorems.QuiescentExactly: its condition speaks of what each landing replaced, which only a run's history tells; Overlap.SubmitExactly has the condition that can be checked before submitting.
- Split.StripedRefinesFlat: takes the pieces of a request at once and in order; FlatArray.ArrayIsFlatDisk lets them finish in any order, for writes.
- Split.Request.SplitOff: bio_split is taken as the block layer documents it.
