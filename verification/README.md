# IHK in Dafny

IHK (Interface for Heterogeneous Kernels) splits a machine between Linux and lightweight co-kernels. This project models the parts of IHK where the state is hardest to keep right and proves what they promise, for every input, every schedule or every run.

- **Messages between kernels.** `IkcRing` is the lock-free packet ring as a step system: one load, compare-and-swap or word copy per step, any number of producers and consumers, every interleaving. `IkcRingIndex` proves its index safety without assumptions, `IkcRingFifo` proves that it refines a plain queue, `IkcRingLimits` says exactly how many producers and consumers it takes for that, and `IkcRingCalls` what each call returns. `IkcQueue` is the same code run by one caller at a time. `IkcDisconnect` and `IkcConnect` are the two handshakes over the master channel as step systems of two ends, their threads and the messages in flight; `IkcDisconnectCalls`, `IkcConnectCodes` and `IkcConnectVerdicts` say what their callers are told and which connects succeed.
- **Physical memory.** `MemChunks`, `MemLayout` and `MemHeld` define chunks, compound pages and the invariant that ties them together. `MemTree` is the coalescing search tree, `MemReserve` and `MemRelease` move pages between Linux and the free list, `MemAssign` collects chunks for an OS, `MemPartial` trims a node, `MemPartition` is the whole partition with every operation and every run of them, and `MemLedger` keeps the books of what Linux has handed out and got back.
- **CPUs.** `CpuPartition` is the CPU status table with the ordered CPU mapping of each OS.
- **The user library.** `BalancedPlan` is the plan that evens out reserved memory over NUMA nodes. `Decimal`, `Fields`, `CpuText`, `MemText` and `IkcText` are the text forms of CPU lists, memory lists and IKC maps.
- **Smaller cores.** `PageTable` and `BootMap` build and tear down the boot page table of a co-kernel (4-level paging, section 4.5 of the Intel SDM Volume 3A), `DumpAreas` extracts runs from dump bitmaps, `DmaRing` is the DMA descriptor ring with its doorbell, `DmaEffects` is what its descriptors do against what requests ask for, `DmaCalls` is what callers are told and which requests the core is given, and `BitmapAlloc` is the bitmap page allocator.

`RingMath` holds arithmetic shared by the rings, `Options` the option type.

## How the model is made

- A step system applies one step to a state; a step that is not enabled changes nothing. A schedule is any sequence of steps, so a statement about all schedules is a statement about all interleavings. Memory is sequentially consistent, counters do not wrap, and each update of a channel's flag word is one step.
- What a call returns is stated over calls as an onlooker sees them: a record of each call is folded along the schedule from the steps and the shared state, apart from the step functions, and the theorems tie the answer of the call to that record.
- Linux's page frames are a map from byte addresses to the compound page around them. What Linux, the clock or the hardware decide (pages handed out, `kmalloc` failing, a CPU that does not go offline, a message that cannot be sent) is a parameter or a step.
- Sizes and addresses are unbounded integers. Where 64-bit or 32-bit arithmetic matters it is written out: `Leftover`, `Sub64`, `Shifted`, `ToInt`, `Clamp`, `Wire`.

## Where the code falls short of its promise

Each of these comes with the exact condition under which the code does meet its promise, and, except where the condition speaks for itself, with a lemma at a concrete input.

- The full test of the ring is an equality on two separate loads. With two producers, a consumer and at least two slots the ring overfills (`TwoProducersOverfill`); the capacity holds on all schedules exactly when there is at most one producer, no consumer, or one slot (`CapacityExactly`). With two consumers a reader can deliver a mixed packet (`TwoConsumersMix`, `FifoExactly`).
- A disconnect whose message cannot be sent never completes (`FailedSendStays`); both ends are torn down exactly when no send failed (`QuiescenceExactly`).
- A memory assignment that is cut inside a page leaves a free chunk that starts at no compound head (`CutInsidePage`, `LeftoverHeadExactly`). After a successful `Partition.Assign` the partition is whole exactly when the request was whole pages or "all".
- Building the tree for a partial release damages the free list exactly when two free chunks touch (`ListSurvivesExactly`, `TouchingPagesOverrun`).
- An assignment that names a CPU twice is accepted and breaks the mapping; it keeps it exactly when no CPU is named twice (`AssignExactly`, `NamedTwice`).
- The balanced plan may release more than it should; it keeps the average for every node exactly when the nodes that were to release but do not reach the threshold lack no more than rounding has added (`KeepsAverageExactly`, `ReleasesTooMuch`). It divides by zero exactly when the memory is enough and no node is above the average, or none above the average with its compensation (`PlanFor`, `DividesExactly`, `DividesAtTwoNodes`).
- Printing a CPU list drops a lone 0 that is not last; the list comes back exactly when there is none (`CpuText.RoundTripExactly`, `LosesZero`). A memory size comes back exactly when it fits in a long (`MemText.RoundTripExactly`, `TooBigForLong`). Reading a CPU range that ends at INT_MAX never ends (`CpuStr2Array`).
- Reading a memory list returns an int for an error that is a long. Some refused sizes are therefore taken for success (`RefusedYetAccepted`); success means that all was stored exactly when no field is refused or the low half of the first error is negative (`SuccessMeansStored`).
- A kernel window is complete exactly when the image starts on a large page (`SetupStartup`). The one caller aligns the image, at line 1080 of `linux/driver/smp/smp-driver.c`, so the other case is not reached today. A second mapping of a small page replaces the first (`SecondMappingReplaces`); existing translations survive exactly when the page was free or led to the same frame (`MappedSmallKeeps`).
- The dump emitter looks at the room in the caller's buffer only between chunks. What it writes fits exactly when there is room for all areas, or when some number of leading chunks has just as many areas as there is room for (`EmitAreas`).
- The bitmap equals the live blocks exactly when all sizes are below 32 or multiples of 64 (`Run` of the allocator, `TakesTooMuch`). For size 31 this takes the mask `(1 << 31) - 1`, computed as a signed int, to wrap to the low 31 bits, as compilers do.
- The reply to a connect may fail to be sent, and nobody looks. The connect then waits for ever (`LostWaitsForEver`, `LostReply`); with nothing in flight a connect still waits exactly when its reply was lost (`ForgottenExactly`).
- A connect is meant to return a negative error number. It returns a positive one exactly when its request named a port out of range, or passed all tests and was turned down by the listener with a positive number (`FailedPositiveExactly`, `RefusalPositiveExactly`, `PortOutOfRange`).
- A DMA request with a callback sets the type and the first parameter of its second descriptor only, while the core stores a word for every descriptor of that type. The core therefore stores what the slot held before where that pointed to (`CallbackStores`); what it does is what was asked for exactly when there was no callback (`DoesWhatIsAsked`, `AllDoneExactly`).

## Model

| member | source | states |
|---|---|---|
| IkcRingIndex.EveryScheduleIsIndexSafe | ikc/queue.c:105-212 | On every schedule of any producers and consumers the three counters stay ordered, every unpublished ticket is held by exactly one producer, copies end before publication, and every taken ticket is handed out exactly once or is being copied out by exactly one consumer |
| IkcRingIndex.OwnedStep | ikc/queue.c:175-209 | Every step leaves each ticket between the published and the claimed counter with an owner |
| IkcRingIndex.HoldersDistinctStep | ikc/queue.c:184-207 | No step lets two producers hold the same ticket |
| IkcRingIndex.TakenStep | ikc/queue.c:112-130 | Every ticket below the read counter has been delivered or is held by a consumer |
| IkcRingFifo.CalmSchedulesAreFifoSafe | ikc/queue.c:105-212 | When claims use a fresh difference and one consumer copies at a time, the ring never exceeds its capacity, slots being written, published or read keep their packet, and the n-th delivery is the n-th claimed packet unchanged |
| IkcRingFifo.StepRefinesFifo | ikc/queue.c:105-212 | On such schedules every step is a step of a bounded first-in first-out queue, whose packets are the contents of the slots from the read counter to the published counter: publishing appends the packet of the producer, taking a ticket removes the first, no other step changes it, "none" is answered only when it is empty, and what is handed over is the packet claimed under the ticket taken |
| IkcRingLimits.TwoProducersOverfill | ikc/queue.c:172-187 | With two producers and a consumer there is a schedule that exceeds the capacity, for every ring of two or more slots |
| IkcRingLimits.OneProducerFits | ikc/queue.c:172-187 | With at most one producer no schedule exceeds the capacity |
| IkcRingLimits.NoConsumerFits | ikc/queue.c:172-187 | Without consumers no schedule exceeds the capacity |
| IkcRingLimits.OneSlotStaysEmpty | ikc/queue.c:172-187 | A ring of one slot never takes a packet |
| IkcRingLimits.CapacityExactly | ikc/queue.c:172-187 | The capacity holds on all schedules if and only if there is at most one producer, no consumer, or one slot |
| IkcRingLimits.TwoConsumersMix | ikc/queue.c:112-130 | With two consumers there is a schedule that delivers something that was never claimed for that ticket |
| IkcRingLimits.FifoExactly | ikc/manycore.c:56-72 | Capacity and contents hold on all schedules if and only if there is one producer and one consumer |
| IkcRingCalls.EveryCallOk | ikc/queue.c:165-212 | On every schedule of any producers and consumers a write that returned 0 has its own packet under exactly one ticket, published; one that returned busy has none and has found the ring full 129 times; one under way keeps its packet |
| IkcRingCalls.TicketsAreCalls | ikc/queue.c:165-212 | On every schedule the packet under each ticket is the one that the caller who drew it was given |
| IkcRingCalls.EveryReadingOk | ikc/queue.c:105-134 | On every schedule a read that returned none had last found the queue empty and has taken nothing; one that returned a packet has taken one ticket and handed over one packet, under that ticket; one that lost a race has taken nothing and is still under way |
| IkcRingCalls.NobodyStuck | ikc/queue.c:165-212 | On every schedule a write under way can go on, or waits with a copied packet for another write that can |
| IkcRingCalls.ReadersNeverStuck | ikc/queue.c:105-134 | A read under way can always go on |
| IkcQueue.Queue.constructor | ikc/queue.c:54-76 | A new queue has as many slots as fit behind the header; it is empty and fit for use if and only if there is room for one |
| IkcQueue.Queue.IsEmpty | ikc/queue.c:78-84 | Empty exactly when no packet waits |
| IkcQueue.Queue.IsFull | ikc/queue.c:86-103 | Full exactly when one slot less than there are is taken |
| IkcQueue.Queue.Read | ikc/queue.c:105-134 | Returns and removes the oldest packet, or reports empty |
| IkcQueue.Queue.Write | ikc/queue.c:165-212 | Appends the packet, or is busy exactly when the queue is full, word loop included |
| IkcDisconnect.EveryScheduleKeepsInv | ikc/master.c:234-255 | The handshake invariant holds on every schedule of disconnects, deliveries, enables and failing sends |
| IkcDisconnect.AtMostOneDisconnect | ikc/master.c:400-459 | Each end sends at most one DISCONNECT, and the packet handler never goes to sleep |
| IkcDisconnect.RestIsNoMove | ikc/master.c:400-459 | The system is at rest exactly when no step changes it |
| IkcDisconnect.QuiescenceExactly | ikc/master.c:400-459 | At rest after a disconnect, both ends are destroying and acknowledged and nobody sleeps, if and only if no send failed |
| IkcDisconnect.FailedSendStays | ikc/master.c:400-459 | One caller whose send fails: all is at rest and neither end is torn down |
| IkcDisconnect.NeverEnabledAgain | ikc/include/ikc/queue.h:126-129 | With either status bit set a channel never tests enabled again, whatever is called |
| IkcDisconnect.BoundedHandshake | ikc/master.c:400-459 | No schedule has more than a fixed number of effective steps, whatever the number of threads |
| IkcDisconnectCalls.EveryCallOk | ikc/master.c:406-459 | On every schedule a disconnect has returned success if and only if it marked the end itself, its message was sent, and the end was acknowledged before the call or by its return; it has returned busy if and only if the end was already marked or its message could not be sent |
| IkcDisconnectCalls.EnabledExactly | ikc/master.c:436-449 | On every schedule the enabled bit is set if and only if the channel was switched on since the last disconnect began |
| IkcDisconnectCalls.TestsEnabledExactly | ikc/include/ikc/queue.h:126-129 | On every schedule a channel tests enabled if and only if no disconnect has begun and no message of the other end has arrived |
| IkcDisconnectCalls.EveryHandlerOk | ikc/master.c:234-255 | On every schedule the handler disconnects only an end that nobody was tearing down when it looked |
| IkcConnect.CodeRoundTrip | ikc/master.c:184-229 | Error codes survive the trip through the unsigned reply field, and 0 alone means success |
| IkcConnect.EveryScheduleIsOk | ikc/master.c:335-396 | The connect invariant holds on every schedule of concurrent connects, accepts and deliveries on both ends, with requests and replies that cannot be sent |
| IkcConnect.ConnectsAreCrossLinked | ikc/queue.c:217-407 | Every finished connect has a peer on the other end: each sends into the other's receive queue and each names the other's id and descriptor; no two share a peer |
| IkcConnect.AnsweredByOwnReply | ikc/master.c:272-332 | A waiting connect is answered only by the reply to its own request |
| IkcConnect.ForgottenExactly | ikc/master.c:184-332 | With no message in flight a connect still waits if and only if its reply could not be sent |
| IkcConnect.LostWaitsForEver | ikc/master.c:212-225 | A connect whose reply could not be sent still waits after whatever else happens |
| IkcConnectCodes.LostReply | ikc/master.c:212-225 | A connect that is accepted but not told: it waits with nothing in flight, and the other side keeps a channel that is switched on |
| IkcConnectCodes.RefusalPositiveExactly | ikc/master.c:193-210 | The code of a refusal is positive if and only if the port is out of range, or all tests pass and the listener returns a positive number |
| IkcConnectCodes.RefusalExactly | ikc/master.c:98-143 | The code of a judgement: 22 for a port out of range, -111 when nobody listens or the magic differs, -103 for another packet size, -12 without memory, and otherwise what the listener returned; 0 if and only if all tests pass and the listener returned 0 |
| IkcConnectCodes.EveryScheduleHasCodes | ikc/master.c:184-396 | On every schedule each request in flight is unjudged, each reply carries the code of the judgement of its own request, and a failed connect returns that code, or that it could not be sent |
| IkcConnectCodes.FailedPositiveExactly | ikc/master.c:184-396 | On every schedule a failed connect returns a positive number if and only if its own request was judged and named a port out of range, or passed all tests and met a listener that returned a positive number |
| IkcConnectCodes.FailedExactly | ikc/master.c:335-396 | On every schedule a failed connect returns -16 if its request could not be sent, and otherwise the code of the first test that its own request failed, or what the listener returned |
| IkcConnectCodes.PortOutOfRange | ikc/master.c:193-217 | A connect to port 512 returns 22 |
| IkcConnectVerdicts.EveryScheduleHasVerdicts | ikc/master.c:98-229 | On every schedule a request that was judged has a channel of the other side that is switched on if and only if it passed all tests and the listener returned 0, and no other request has one |
| IkcConnectVerdicts.EveryAnswerEnds | ikc/master.c:361-396 | On every schedule a connect that has its answer ends with its next step, connected if its request was judged fine and failed with the code of its judgement otherwise |
| IkcConnectVerdicts.ConnectMoves | ikc/master.c:335-396 | A connect that is created or registered goes on |
| IkcConnectVerdicts.MessageMoves | ikc/master.c:184-229 | Every message in flight can be taken, given a fresh descriptor and queue, and is then gone |
| IkcConnectVerdicts.ListenersExactly | ikc/master.c:46-74 | On every schedule the listeners of a side are the first that asked for each port in range |
| MemTree.Insert | linux/driver/smp/smp-driver.c:3337-3401 | Inserting a chunk keeps the tree sorted with gaps, covers exactly the old bytes and the new, and joins both neighbours if they touch |
| MemTree.Search | linux/driver/smp/smp-driver.c:3337-3401 | The descent meets every neighbour that touches the new chunk |
| MemTree.JoinedGapped | linux/driver/smp/smp-driver.c:3337-3401 | Joining a chunk with whatever it touches leaves no two chunks that touch |
| MemTree.JoinedCovers | linux/driver/smp/smp-driver.c:3337-3401 | Joining loses and invents no byte |
| MemChunks.InsertSorted | linux/driver/smp/smp-driver.c:1248-1271 | Adding a disjoint chunk to the free list keeps it sorted by address without overlap |
| MemChunks.MergeAtMerged | linux/driver/smp/smp-driver.c:1274-1298 | Whichever pair is merged first, merging ends in the same list |
| MemChunks.MergedIsFull | linux/driver/smp/smp-driver.c:1274-1298 | In that list no neighbours on one node touch |
| MemAssign.Merge | linux/driver/smp/smp-driver.c:1274-1298 | The scan that restarts after each merge ends in that list |
| MemHeld.MergedHeld | linux/driver/smp/smp-driver.c:1274-1298 | Merging keeps the invariant of chunks and compound pages |
| MemHeld.MergedCovers | linux/driver/smp/smp-driver.c:1274-1298 | Merging changes no byte and no node |
| MemAssign.Pick | linux/driver/smp/smp-driver.c:2463-2480 | Chooses the first exact fit on the node, or else the first of its largest chunks |
| MemAssign.LeftoverIsRest | linux/driver/smp/smp-driver.c:2537-2572 | A cut between pages leaves free what follows the compound page that is cut into |
| MemAssign.LeftoverExactly | linux/driver/smp/smp-driver.c:2537-2572 | Where what stays free begins and ends for any cut, inside a page too, with the size wrapping at 64 bits, and when nothing stays |
| MemAssign.LeftoverHeadExactly | linux/driver/smp/smp-driver.c:2537-2572 | What stays free starts at a compound head if and only if the cut is between pages |
| MemAssign.CutInsidePage | linux/driver/smp/smp-driver.c:2537-2572 | Two pages of which 100 bytes are taken: the rest starts at no compound head |
| MemAssign.CutLast | linux/driver/smp/smp-driver.c:2523-2577 | The last chunk taken is cut to the byte, and for whole pages the invariant holds again |
| MemAssign.Take | linux/driver/smp/smp-driver.c:2443-2578 | Collects exactly the request, all from the node, or all there is for "all", choosing the best chunk of what is left each time, and leaves the list without them; with enough descriptors it succeeds if and only if the node has that much; it fails only without descriptors or with too little on the node, and then has cut nothing |
| MemAssign.PutBack | linux/driver/smp/smp-driver.c:2636-2652 | The error path restores exactly the free bytes of every node and leaves the list fully merged |
| MemAssign.CarvedBytes | linux/driver/smp/smp-driver.c:2523-2577 | After a success the only bytes on neither list are the tail of the compound page that was cut |
| MemLayout.CutInv | linux/driver/smp/smp-driver.c:2537-2572 | Cutting a chunk keeps chunks disjoint, starting at heads, and every head in one of them |
| MemLayout.HeadInExactlyOne | linux/driver/smp/smp-driver.c:3907-3945 | Under the invariant every compound head lies in exactly one chunk |
| MemLayout.GiveBackInv | linux/driver/smp/smp-driver.c:3907-3945 | Giving back the compound pages that start in one chunk leaves the invariant for all others |
| MemRelease.ReleaseChunk | linux/driver/smp/smp-driver.c:3907-3945 | Frees every compound page that starts in the chunk, each once and in order, and no other |
| MemReserve.Gather | linux/driver/smp/smp-driver.c:3783-3795 | The tree ends up with the maximal runs of the gathered pages, in whatever order they came |
| MemReserve.GatheredHeld | linux/driver/smp/smp-driver.c:3783-3795 | Those runs start at compound heads and join the partition without overlap |
| MemReserve.PickLargest | linux/driver/smp/smp-driver.c:3804-3810 | Chooses the first of the largest runs |
| MemReserve.Select | linux/driver/smp/smp-driver.c:3797-3882 | Moves runs, the first of the largest first, until the request is met or none is left, keeps every byte in one place, and takes no more than to the end of the compound page in which the request ends; "all" takes every run |
| MemReserve.FreeTree | linux/driver/smp/smp-driver.c:3314-3334 | Gives back all runs that are left, each compound page once |
| MemReserve.Returned | linux/driver/smp/smp-driver.c:3314-3334 | Giving back all runs gives back every gathered page once and leaves the frames as they were |
| MemReserve.Wanted | linux/driver/smp/smp-driver.c:3582-3585 | The least whole number of 4 MiB that is no less than the request; 0 past the point where the 64-bit sum wraps; "all" stays "all" |
| MemReserve.Reserve | linux/driver/smp/smp-driver.c:3582-3904 | Succeeds if and only if "all" was asked for or enough was gathered; a success adds to the free bytes of the node alone at least the request, from the largest runs first and to the end of the gathered compound page in which it ends, or all that was gathered, and gives back only pages of this reservation; a failure leaves list and frames as they were and gives back every gathered page once |
| MemPartition.Partition.constructor | linux/driver/smp/smp-driver.c:96-97 | An empty partition is whole |
| MemPartition.Partition.Reserve | linux/driver/smp/smp-driver.c:3582-3904 | A reservation keeps the partition whole and succeeds or fails as above, for every size and for "all" |
| MemPartition.Partition.Assign | linux/driver/smp/smp-driver.c:2424-2675 | Busy if and only if the OS is running, and then nothing changes. Otherwise success moves exactly the request from the node to the OS, best chunks first, failure leaves used chunks and free bytes as they were and a merged or untouched list; with enough descriptors it succeeds if and only if the node has that much; after a success the partition is whole if and only if the request was whole pages or "all" |
| MemPartition.NeatExactly | linux/driver/smp/smp-driver.c:2523-2577 | A whole partition after an assignment means that the request was whole pages or "all" |
| MemPartition.Partition.ReleaseOs | linux/driver/smp/smp-driver.c:2743-2830 | Returns the first chunk with that owner, size and node, or fails if and only if the OS is running or there is none, and then changes nothing |
| MemPartition.Partition.Shutdown | linux/driver/smp/smp-driver.c:1342-1455 | Returns exactly the chunks of an OS that is running and leaves the others in order; an OS that is not running keeps its chunks |
| MemPartition.Partition.ReleaseDevice | linux/driver/smp/smp-driver.c:3948-3988 | Gives back the first free chunk with that size and node, each compound page once, or fails if and only if there is none |
| MemPartition.Partition.Trim | linux/driver/smp/smp-driver.c:4024-4169 | A partial release keeps the partition whole, succeeds if and only if the node has that much, and takes the smallest chunks first |
| MemPartition.Run | linux/driver/smp/smp-driver.c:4616-4830 | Every run of reserve, assign, release, boot, shutdown, device release and trim keeps the partition whole, reservations of "all" and reservations that fail included, and its frames are those handed out by Linux and not given back; what is given back was held, each compound page once |
| MemPartition.Do | linux/driver/smp/smp-driver.c:4616-4830 | The same for one request |
| MemLedger.Balance | linux/driver/smp/smp-driver.c:3907-3945 | Over every such run each compound page is given back as often as it was handed out, but for once if it is still held |
| MemPartition.Whole | linux/driver/smp/smp-driver.c:1248-1298 | What whole means: both lists sorted, no overlap within or between them, no chunk starting inside a compound page, every compound head in exactly one chunk |
| MemPartial.BuildTree | linux/driver/smp/smp-driver.c:4035-4037 | The tree holds the bytes of the list as maximal runs, and equals the list when no two chunks touch |
| MemPartial.ListSurvivesExactly | linux/driver/smp/smp-driver.c:4035-4037 | Building the tree leaves the list sorted if and only if no two of its chunks touch |
| MemPartial.TouchingPagesOverrun | linux/driver/smp/smp-driver.c:4035-4037 | Two touching pages for which it does not |
| MemPartial.PickSmallest | linux/driver/smp/smp-driver.c:4040-4060 | Chooses the first of the smallest chunks on the node |
| MemPartial.Shrink | linux/driver/smp/smp-driver.c:4085-4157 | Frees compound pages from the front without cutting one, at most what is asked for, up to the first compound page that is bigger than what is left or starts at a granule border with less than a granule left |
| MemPartial.ReleasePartially | linux/driver/smp/smp-driver.c:4024-4169 | Frees whole chunks, the first of the smallest first, as long as they are no bigger than what is left to free, and shrinks the next to where the shrinking first stops; frees at most the request and falls short by less than the compound page at the start of the chunk where it stops, or by less than the 4 MiB granule, touches no other node, empties no shrunk chunk, frees each page once, keeps the list sorted with gaps, and succeeds if and only if the node has that much |
| MemPartial.PutRest | linux/driver/smp/smp-driver.c:3991-4014 | Moving the header of a shrunk chunk puts it where it was in the order |
| CpuPartition.CpuTable.constructor | linux/driver/smp/smp-driver.c:91 | The table starts with every CPU at Linux or absent |
| CpuPartition.CpuTable.Assign | linux/driver/smp/smp-driver.c:1846-1955 | Busy if and only if the OS is running. Otherwise succeeds if and only if all CPUs are in range and available, appends them in order with their hardware ids, and keeps the invariant if and only if none is named twice; a failure changes nothing |
| CpuPartition.AssignExactly | linux/driver/smp/smp-driver.c:1846-1870 | After an assignment every mapping lists exactly the CPUs of its OS without repeats if and only if the request has none |
| CpuPartition.NamedTwice | linux/driver/smp/smp-driver.c:1846-1955 | A request naming one CPU twice passes all checks and breaks the mapping |
| CpuPartition.DropCpu | linux/driver/smp/smp-driver.c:2061-2077 | The shift-down loops remove one entry from both arrays and keep the order |
| CpuPartition.CpuTable.ReleaseOs | linux/driver/smp/smp-driver.c:1977-2081 | Busy if and only if the OS is running. Otherwise succeeds if and only if all CPUs belong to the OS; the mapping is then the old one filtered in order, with hardware ids in step |
| CpuPartition.CpuTable.Shutdown | linux/driver/smp/smp-driver.c:1342-1382 | All CPUs of an OS that is running, and no others, become available and its mapping empty; an OS that is not running keeps its CPUs |
| CpuPartition.CpuTable.Boot | linux/driver/smp/smp-driver.c:528-763 | An OS starts running unless it is running or has no CPUs |
| CpuPartition.CpuTable.Reserve | linux/driver/smp/smp-driver.c:4280-4386 | Succeeds if and only if all CPUs are present, online, Linux's and go offline; a failure restores every status and returns the error of the lowest CPU that fails |
| CpuPartition.CpuTable.ReleaseDevice | linux/driver/smp/smp-driver.c:4393-4513 | Succeeds if and only if all CPUs are present, reserved, free and come online; a failure leaves exactly the CPUs before the failing one with Linux and returns its error |
| CpuPartition.Do | linux/driver/smp/smp-driver.c:1370-4513 | One request keeps the invariant and changes the mappings as its answer says |
| CpuPartition.Run | linux/driver/smp/smp-driver.c:1370-4513 | On every run of requests that name no CPU twice, a CPU is assigned if and only if it has an owner, and each mapping lists exactly the CPUs of its OS once, with hardware ids in step, in the order of the assignments that were met without what was released since; a shutdown empties it if and only if the OS was running |
| BalancedPlan.PlanFor | linux/user/ihklib.c:1459-1616 | An accepted plan uses the three rounded levels and keeps every node within the variance limit; a refused one lacks memory or has a node outside the limit; it divides by zero if and only if the memory is enough and no node is above the average, or none above the average with its compensation |
| BalancedPlan.Plan | linux/user/ihklib.c:1419-1616 | The same for the amount left by the best-effort rules, and no memory when too little is reserved |
| BalancedPlan.DividesExactly | linux/user/ihklib.c:1467-1551 | It divides by zero if and only if every node with memory holds exactly the average, or what is missing is there and no node holds more than the average and the compensation |
| BalancedPlan.DividesAtTwoNodes | linux/user/ihklib.c:1467-1551 | Nodes with 90 and 110 MiB of which 200 are wanted |
| BalancedPlan.Brackets | linux/user/ihklib.c:1592-1597 | The least and the most that a node keeps lie on both sides of the average, so the unsigned subtractions never wrap |
| BalancedPlan.LimitExactly | linux/user/ihklib.c:1592-1597 | The variance test passes if and only if every node is within the limit |
| BalancedPlan.LimitIs | linux/user/ihklib.c:1592-1594 | The limit is the percentage of the average, rounded down |
| BalancedPlan.ShareExactly | linux/user/ihklib.c:1459-1463 | A share is the least whole number of MiB that is no less than the quotient |
| BalancedPlan.WantedExactly | linux/user/ihklib.c:1428-1457 | Without best effort a request that is there stands; with it, it is cut to what is there and then to the largest amount that is a whole number of MiB for every node |
| BalancedPlan.SharesCover | linux/user/ihklib.c:1459-1463 | Rounding a share of whole pages up to MiB makes up for what the division drops |
| BalancedPlan.KeepsAverageExactly | linux/user/ihklib.c:1467-1590 | The total kept reaches the average for all nodes if and only if the unreached part of the threshold is covered by rounding |
| BalancedPlan.KeepsAverage | linux/user/ihklib.c:1467-1590 | It does when every node above the second level is above the threshold |
| BalancedPlan.AverageCovers | linux/user/ihklib.c:1459-1463 | The average of all nodes is at least the amount wanted |
| BalancedPlan.SizesAreWhole | linux/user/ihklib.c:1556-1575 | The sizes to release are whole pages |
| BalancedPlan.ReleasesTooMuch | linux/user/ihklib.c:1467-1590 | Five nodes for which a plan is accepted at a variance of 10 percent and keeps 4977 MiB where 5000 are wanted and available |
| CpuText.CpuStr2Array | linux/user/ihklib.c:151-230 | Returns the count or an error as the fields decide, with the first numbers in the array as far as it goes, and does not return if and only if it comes to a range that ends at INT_MAX |
| CpuText.CountIsFill | linux/user/ihklib.c:232-235 | The counting pass gives the number of any successful filling pass |
| CpuText.CpuArray2Str | linux/user/ihklib.c:578-621 | Prints the maximal runs of a list of CPU numbers, without a lone 0 that is not last |
| CpuText.PrintThenRead | linux/user/ihklib.c:578-621 | Reading the printed form gives the list in order without the zeros that are lost, for any array size |
| CpuText.RoundTripExactly | linux/user/ihklib.c:578-621 | It gives the list itself if and only if no 0 before the last place lacks a 1 after it |
| CpuText.LosesZero | linux/user/ihklib.c:578-621 | Of the CPUs 0 and 5 only 5 comes back |
| MemText.MemStr2Array | linux/user/ihklib.c:301-369 | Returns the number of fields or the first error, cut down to an int; when there is no error sizes and nodes are stored |
| MemText.MemStr2Count | linux/user/ihklib.c:573-576 | The counting pass looks at the shape of the fields only |
| MemText.CountIsFill | linux/user/ihklib.c:301-369 | It gives the number of any filling pass that meets no error |
| MemText.SuccessMeansStored | linux/user/ihklib.c:301-369 | An int that looks like success means success if and only if no field is refused, or the low half of the first error is that of a negative int |
| MemText.RefusedYetAccepted | linux/user/ihklib.c:301-369 | Two refused sizes that are returned as 0 and as 1 |
| MemText.MemArray2Str | linux/user/ihklib.c:628-651 | Prints size and node of each chunk between commas |
| MemText.RoundTripExactly | linux/user/ihklib.c:628-651 | Reading the printed form succeeds with the same nodes, and with the same sizes if and only if all fit in a long |
| MemText.TooBigForLong | linux/user/ihklib.c:628-651 | A size of 2 to the 63 reads back as one less |
| Decimal.StrtolDec | linux/user/ihklib.c:256-271 | Reading a printed integer takes all of it and gives it back, clamped to a long |
| Fields.SplitJoin | linux/user/ihklib.c:171-224 | Taking apart joined fields gives the fields |
| IkcText.Rank | linux/user/ihklib.c:694-703 | The first pass gives each source its place in its group and the sizes of the groups |
| IkcText.Place | linux/user/ihklib.c:705-719 | The second pass gives every group its sources in order |
| IkcText.IkcReq2Str | linux/user/ihklib.c:658-753 | Prints the non-empty groups by ascending destination |
| IkcText.IkcStr2Array | linux/user/ihklib.c:431-526 | Returns the number of pairs and stores them, or fails if and only if a field is malformed |
| IkcText.PrintThenRead | linux/user/ihklib.c:431-753 | Reading the printed form of a map with distinct sources gives its pairs grouped by destination |
| IkcText.GroupedIsStable | linux/user/ihklib.c:658-753 | That grouping is a stable sort by destination |
| PageTable.AddTableWalk | linux/driver/smp/arch/x86_64/smp-arch-driver.c:1937-1975 | Hooking in an empty table changes no translation |
| PageTable.SetLargeWalk | linux/driver/smp/arch/x86_64/smp-arch-driver.c:1983-1987 | Writing a large leaf changes the translation of its large page only |
| PageTable.SetSmallWalk | linux/driver/smp/arch/x86_64/smp-arch-driver.c:1989-1997 | Writing a small leaf changes the translation of its page only |
| PageTable.MappedSmallKeeps | linux/driver/smp/arch/x86_64/smp-arch-driver.c:1989-1997 | A small mapping leaves every existing translation alone if and only if its page was free or led to the same frame |
| PageTable.SecondMappingReplaces | linux/driver/smp/arch/x86_64/smp-arch-driver.c:1989-1997 | Mapping the page at 0x1000 to 0x1000 and then to 0x5000 succeeds twice, and the second translation stands |
| PageTable.BootTable.constructor | linux/driver/smp/arch/x86_64/smp-arch-driver.c:478-482 | A new table translates nothing |
| PageTable.BootTable.Descend | linux/driver/smp/arch/x86_64/smp-arch-driver.c:1937-1975 | Gives the next table on the walk, keeps the tree and all translations, and fills one entry of its level at most |
| PageTable.BootTable.MapKernel | linux/driver/smp/arch/x86_64/smp-arch-driver.c:1925-2002 | Maps the address large or small as alignment allows and nothing else, fails busy if and only if a large page is there, fails for memory only when too few pages are left for the tables that are missing, and a failure changes no translation |
| BootMap.MapWindow | linux/driver/smp/arch/x86_64/smp-arch-driver.c:484-492 | The mapping loop translates the whole window, or only the first page of each large page when the target is not aligned; it succeeds if and only if there are enough pages for the tables the window needs, and takes just those |
| BootMap.SetupStartup | linux/driver/smp/arch/x86_64/smp-arch-driver.c:467-523 | Succeeds if and only if there are 516 pages for tables, 520 for an image that does not start on a large page; identity and straight windows then translate as intended, nothing else does, and the kernel window is complete if and only if the image starts on a large page |
| BootMap.AllBelowOnce | linux/driver/smp/arch/x86_64/smp-arch-driver.c:1847-1923 | The pages below the root are all pages of the table, each once |
| BootMap.FreePageTables | linux/driver/smp/arch/x86_64/smp-arch-driver.c:1847-1923 | Teardown frees every table page exactly once |
| DumpAreas.RunsAreMaximal | linux/driver/smp/arch/x86_64/smp-arch-driver.c:739-785 | The runs of a chunk are maximal, ordered and apart |
| DumpAreas.RunsCover | linux/driver/smp/arch/x86_64/smp-arch-driver.c:739-785 | Every set bit is in a run |
| DumpAreas.ReportedExactly | linux/driver/smp/arch/x86_64/smp-arch-driver.c:739-785 | A run is reported if and only if it is a maximal run of set bits |
| DumpAreas.SizeIsSetBits | linux/driver/smp/arch/x86_64/smp-arch-driver.c:739-785 | The sizes add up to the set bits times the page size |
| DumpAreas.BitOrder | linux/driver/smp/arch/x86_64/smp-arch-driver.c:614-652 | Bit k of a word is the one worth 2 to the k |
| DumpAreas.CountChunk | linux/driver/smp/arch/x86_64/smp-arch-driver.c:614-652 | The counting loop gives the number of runs of a chunk, across word borders |
| DumpAreas.CountAreas | linux/driver/smp/arch/x86_64/smp-arch-driver.c:614-652 | The count is the number of areas of all chunks |
| DumpAreas.EmitChunk | linux/driver/smp/arch/x86_64/smp-arch-driver.c:739-785 | The emitting loop gives the areas of a chunk |
| DumpAreas.EmitAreas | linux/driver/smp/arch/x86_64/smp-arch-driver.c:739-785 | All areas are emitted when there is room for them, and always a prefix of them; otherwise they stay within the room if and only if some number of leading chunks has just as many areas as there is room for |
| DmaRing.EveryScheduleKeepsInv | linux/driver/builtin/dmacore.c:44-230 | The ring invariant holds on every schedule of requests and the core |
| DmaRing.RunOnceInOrder | linux/driver/builtin/dmacore.c:87-98 | Descriptors run once each in the order in which they were submitted, as they were submitted |
| DmaEffects.EffectsExactly | linux/driver/builtin/dmacore.c:60-71 | A descriptor does what its part of the request asks for; that of a callback stores a word before |
| DmaEffects.DoesWhatIsAsked | linux/driver/builtin/dmacore.c:60-230 | On every schedule what the core has done is what the requests ask for, in order and as far as their descriptors have run, if and only if no callback was among them |
| DmaEffects.AllDoneExactly | linux/driver/builtin/dmacore.c:60-230 | When all is at rest everything requested has been done, in order and with nothing besides, if and only if no request had a callback |
| DmaEffects.CallbackStores | linux/driver/builtin/dmacore.c:205-220 | On a ring of four slots that held x and y, one request with a callback makes the core store y at x |
| DmaCalls.EveryCallOk | linux/driver/builtin/dmacore.c:168-230 | On every schedule a request for a channel was answered 0, and is at exactly one place among those passed to the core, if and only if it fitted into the ring with one slot to spare when it looked; it was answered busy otherwise, and invalid for another channel |
| DmaCalls.RequestsAreCalls | linux/driver/builtin/dmacore.c:168-230 | On every schedule the requests passed to the core are those of calls that were answered 0 or are about to be, each caller's in the order of its calls |
| DmaCalls.GrantedAreDone | linux/driver/builtin/dmacore.c:60-230 | When all is at rest the core was given exactly the requests that were answered 0, each caller's in order; all their descriptors have run, and what was done is what was asked for if and only if no request had a callback |
| DmaCalls.NobodyStuck | linux/driver/builtin/dmacore.c:87-230 | On every schedule a request under way can go on, and so can the core unless it spins on a clear doorbell |
| DmaRing.NothingStranded | linux/driver/builtin/dmacore.c:100-126 | When the core spins with the doorbell clear and nobody is about to ring it, every channel is empty |
| DmaRing.RoomExactly | linux/driver/builtin/dmacore.c:154-166 | The room test passes if and only if the descriptors fit without the head catching the tail |
| DmaRing.StoreOk | linux/driver/builtin/dmacore.c:169-230 | Storing into a slot with room overwrites no descriptor that is waiting or being processed |
| BitmapAlloc.FlsRoundsDown | linux/core/mem_alloc.c:60-80 | The block size is the unit rounded down to a power of two |
| BitmapAlloc.TakenExactly | linux/core/mem_alloc.c:180-192 | An allocation marks exactly its blocks if and only if the size is below 32 or a multiple of 64 |
| BitmapAlloc.TakesTooMuch | linux/core/mem_alloc.c:137-192 | A request of 33 blocks marks 64, of which 31 stay marked when it is given back |
| BitmapAlloc.Allocator.constructor | linux/core/mem_alloc.c:60-114 | A new map has a bit for each block and none set |
| BitmapAlloc.Allocator.AllocLarge | linux/core/mem_alloc.c:137-171 | Takes the first run of whole free words, or fails if and only if there is none |
| BitmapAlloc.Allocator.AllocSmall | linux/core/mem_alloc.c:193-218 | Takes the first fit inside a word, or fails if and only if there is none |
| BitmapAlloc.Allocator.AllocWords | linux/core/mem_alloc.c:180-218 | Either way the blocks were free and are now marked, and nothing else changed |
| BitmapAlloc.Allocator.Alloc | linux/core/mem_alloc.c:180-218 | Live ranges stay in bounds, apart and marked |
| BitmapAlloc.Allocator.Free | linux/core/mem_alloc.c:244-259 | Clears exactly the blocks of the range |
| BitmapAlloc.Allocator.Run | linux/core/mem_alloc.c:137-259 | On every run of allocations and matching frees live ranges are marked, and the map is exactly their union if and only if all sizes are below 32 or multiples of 64 |

## Left out

- System call and ioctl plumbing, device files, udev, memory dump tools and the configuration programs: input and output only.
- APIC, trampoline, interrupt vectors, MSRs, sysfs and topology: hardware or foreign state.
- The page-gathering phase of a reservation with its checks of the node and the chunk size, its retries and time limits: its result is the parameter `pages`.
- `smp_ihk_os_alloc_resource`: an older path beside the lists.
- Conditional builds for KRM, Tofu, Fugaku and MIC.
- The rollback of a memory request with several chunks: it matches chunks by exact size, so it is not an undo when one request was met by several chunks. Each request is atomic on its own.
- Start and end address and NUMA mask of an OS, which assignment extends and release does not shrink.
- Red-black rebalancing, which keeps the in-order sequence.
- The look of `merge_mem_chunks` past the last list entry, which reads the list head as if it were a chunk.
- `kmalloc` failing outside memory assignment, and `malloc` failing in the printers.
- The second lock around the flag word: two updates under different locks are taken as atomic.
- A listener without a handler, which is refused as if nobody listened.
- Packet pools, channel lookup, master channel setup, interrupted connects, notification of the other kernel and kernel logging.
- Ring slots whose page count is not a power of two on the Linux side.
- What a CPU range that ends at INT_MAX does to the array before its loop runs on forever.
- CpuText.CpuStr2Array: leaves out lists of more than INT_MAX numbers, for which the source's counter overflows, which C leaves undefined.
- The statuses of an OS other than the initial one are one status here; booting an OS changes nothing but that.
- IkcText.IkcStr2Array: leaves out fields with more than 1024 CPUs and ranges that end at INT_MAX, for which the buffer of the source does not allow.
- IkcText.IkcReq2Str: leaves out maps that name a source twice, for which the source keeps one place only.
- CpuText.CpuArray2Str: says nothing about the text of a list with negative numbers, which are no CPUs.
- BitmapAlloc.Allocator.constructor: leaves out map sizes that are not multiples of 64 blocks, because the source marks the padding by shifting an int by up to 63 places, which C leaves undefined.
- IkcQueue.Queue.constructor: leaves out areas smaller than the queue's header.
- MemPartition.Partition.Trim: takes whole pages, more than none, and a list in which no two chunks touch. The sizes of a balanced plan are whole pages (`SizesAreWhole`).
- A negative variance limit and overflow of the limit's product.
- Hardware ids that differ between two looks at the same CPU.
- MemPartial.ReleasePartially: says nothing for a list in which two chunks touch, because the tree has then damaged the list before anything is released.
- MemReserve.Select: does not model that the chunk header is copied to the front of the run, since a chunk is a value here.
