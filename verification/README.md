# OliveHC: a verified model

OliveHC is an HTTP object cache: a master thread parses requests and owns the index, worker threads
move bodies between sockets and raw devices. This project models its core in Dafny and proves what
the design relies on: that space on the devices is never lost or given out twice, that a GET sends
exactly what the store of that item wrote, that every request has exactly one owner, and that a
dump can be loaded again.

The model follows the form of the C code. Structures that the code updates in place are classes
(`Devices.Space`, `Buckets.IpBucket`, `Caches.Cache`, `Hashes.Hash`, `Slabs.Slab`, `Timers.Timer`);
loops are loops; every state-changing method is tied to a function on values, and the theorems are
about those. Two parts are concurrent and are transition systems over single steps, so that a run
is any interleaving: the life of items (`Life`, `LifeRuns`) and the life of requests (`Workers`).

| files | what they model |
|---|---|
| SizeClass, Buckets | block sizes and the size-class index of free blocks (utils/ipbucket.h) |
| Layout, SpaceModel, SpaceSteps, SpaceLoad, Devices | the division of devices into blocks (device.c) |
| Life, LifeInv, LifeDelete, LifeSteps, LifeRuns | items, requests and disk contents as a transition system (server.c, request.c) |
| CacheModel, Cache, Destroy | the handlers, eviction and device removal as methods that refine that system (server.c, device.c) |
| Responses, Http, Requests, Ranges, Upload | parsing, the stored response, and what a request is answered (http.c, request.c) |
| Checksum, Format | dump and load (format.c) |
| Hash, Slab, Timer | the supporting structures (utils/hash.c, utils/slab.c, utils/timer.c) |
| Worker | dispatch and return of requests between the threads (worker.c, request.c) |

How the layers meet: `Cache.Valid()` says that the fields of the cache are a state of the transition
system that satisfies its invariant, that the device layer holds a tiling for exactly these items,
and that the LRU lists list them. Every handler ensures `Reaches(old(View()), View())`: what it did
is a sequence of steps of the system, so the theorems about runs hold of the handlers.

## Model

| member | source | states |
|---|---|---|
| SizeClass.Adjunction | utils/ipbucket.h:64-105 | for every length from 1 byte to 4 GB and every block of at least a sector: the class a search starts at is not above the class of the block if and only if the block can hold the length |
| SizeClass.BlockSizeFacts | utils/ipbucket.h:52-62 | a block size is a multiple of the sector, holds the item, is its own block size, and lies in the class its item is searched in |
| SizeClass.BlockSizeIsLeastClass | utils/ipbucket.h:52-105 | the block size is the least class size that holds the item, and the upward index names that class |
| SizeClass.IndexDownIsGreatestClass | utils/ipbucket.h:82-105 | the downward index names the highest class whose size the block reaches |
| SizeClass.ExactFit | utils/ipbucket.h:107-116 | within the class a search starts at, the blocks of exact class size are exactly those of the size wanted, which is why they are put at the head |
| SizeClass.Waste | utils/ipbucket.h:52-62 | above 2048 bytes the block exceeds the item by less than a quarter |
| Buckets.IpBucket.Add | utils/ipbucket.h:107-116 | the index then holds the block under its size and nothing else changes; exact sizes stay in front of the others in every class |
| Buckets.IpBucket.Del | utils/ipbucket.h:118-123 | the block is out of the index, also when it was unlinked before; exact sizes stay in front |
| Buckets.IpBucket.Update | utils/ipbucket.h:125-129 | the block is filed under its new size |
| Buckets.IpBucket.Get | utils/ipbucket.h:131-148 | nothing is returned if and only if no block is large enough; a returned block is large enough, of the lowest sufficient class, and an exact fit whenever there is one |
| Buckets.IpBucket.Biggest | utils/ipbucket.h:151-160 | a block of the highest non-empty class, or nothing if and only if the index is empty |
| Buckets.BiggestDecides | device.c:386-394 | the last block of the highest class reaches the size wanted if and only if some free block does, so the test that ends the extension loop is exact |
| SpaceModel.OrderSorted | device.c:47-80 | in every valid state the order list of every device is strictly sorted by offset, its entries do not overlap, lie inside the device and are whole sectors |
| SpaceModel.EveryByte | device.c:473-536 | every byte of a device is in a free block, in the block of an item, or in a retired one: no space is lost |
| SpaceModel.Books | device.c:466-467 | on a device in service free bytes, item blocks and badblock add up to the capacity, and consumed is item blocks plus badblock |
| SpaceModel.NeverTouching | device.c:498-530 | maximal coalescing: on a device in service no free block ends where another begins |
| SpaceModel.PlacesDisjoint | device.c:420-470 | live items never overlap and lie on sector boundaries inside their device |
| SpaceSteps.CutRear | device.c:444-453 | an item cut from the rear of a larger free block leaves a valid tiling |
| SpaceSteps.TakeWhole | device.c:455-460 | an exact fit turns the free block into the item and leaves a valid tiling |
| SpaceSteps.RetireItem | device.c:484-497 | an item whose block is not recycled becomes a hole that is never merged across |
| SpaceSteps.Recycle | device.c:498-528 | the returned block and the free blocks it touches become one free block in a valid tiling, whichever of the four neighbour cases applies |
| SpaceLoad.CutFront | device.c:540-572 | cutting the next item of a dump off the last free block keeps the device loadable, with the gap before it as a free block of its own |
| SpaceLoad.Loaded | device.c:576-586 | filing or dropping the last block after a complete load gives a valid tiling |
| Devices.Space.AddDevice | device.c:82-100 | a new device is one free block that covers it |
| Devices.Space.DeleteBlock | device.c:70-80 | the free block leaves the order list and the index |
| Devices.Space.TakeFrom | device.c:443-469 | whatever large enough block was chosen, the item gets the rear of it; the "oops" exit is never reached |
| Devices.Space.GetFreeBlock | device.c:420-470 | only the new item is placed, inside a block that was free, on a device in service; with no deleted device, failure if and only if no free block is large enough, and an exact fit is used whenever there is one |
| Devices.Space.Coalesce | device.c:498-530 | the in-place merge: exactly this item is unplaced, its bytes are covered by a free block, and the tiling is valid again |
| Devices.Space.ReturnFreeBlock | device.c:473-536 | a bad block is retired and the device is kicked if and only if the percentage is exceeded; a deleted device only loses the entry; otherwise the bytes are free again |
| Devices.Space.CutFreeBlock | device.c:540-572 | refused if and only if the item starts before, or does not fit behind, what was loaded; otherwise placed exactly at the recorded offset |
| Devices.Space.LoadPost | device.c:576-586 | after it the device layer is valid again with the same items |
| Devices.Space.Forget | device.c:150-157 | with an empty order list no item and no free block refers to the device any more |
| LifeRuns.StepKeeps | server.c:393-778 | each of the fourteen steps keeps the invariant: used and putting count exactly the requests in flight, the hash holds exactly the undeleted items and the markers, every image is on disk at its place, and consumed, content, item_nr and passby_item_nr are the sums and counts over what is stored |
| LifeRuns.StartIsGood | server.c:88-100 | an empty cache with fresh devices satisfies that invariant |
| LifeRuns.RunInv | server.c:393-778 | it holds in every state of every run, whatever the interleaving |
| LifeRuns.ServedBytes | request.c:85-123 | at every moment of every run a GET has sent exactly the part of its item's bytes that its plan prescribes so far, and the item is complete |
| LifeRuns.ImageHistory | request.c:126-155 | one step appends to the bytes of an item only if it is a write of the request that holds it; place, key and header length never change, and a deleted item stays deleted |
| LifeRuns.StoredBytes | request.c:223-303 | over any run in which a store is not finalized, its item is what it was plus the data of that request's own writes, in order, whatever other requests do |
| LifeRuns.ServedIsWritten | server.c:520-778 | from the store to the answer: a GET that finds the item sends the bytes its store wrote, in order, as its plan selects them, and they are as many as the item's length |
| LifeRuns.CompleteServed | request.c:305-320 | a GET that finds a complete item and has sent all of its plan has sent what the plan selects of the bytes, whatever happens meanwhile |
| LifeRuns.HeldItemStable | server.c:545-562 | while a GET holds an item neither its bytes nor its place change, even if it is deleted or replaced |
| LifeRuns.LatestStoreWins | server.c:530-551 | a hit yields the item of the most recent accepted store for that key, and that item is complete |
| LifeRuns.BlockReturnedUnheld | server.c:393-416 | an item disappears, and its block is returned, only by a deletion or a finalization, and only when no request holds it any more |
| LifeRuns.Retirement | device.c:111-158 | a deleted device stays deleted, no request newly gets hold of an item on it, and its file is closed only when nobody does |
| LifeRuns.RemovedDeviceUnused | device.c:150-157 | in every state of every run every item lies on a device that is there: a freed slot has no items |
| LifeRuns.ReachesRun | server.c:520-778 | what a handler does extends a run to a run, so the theorems about runs apply to the handlers |
| Caches.Cache.constructor | server.c:88-100 | servers as configured, with empty lists, zero counters and no item or marker, are a valid cache |
| Caches.Cache.Remove | server.c:393-416 | the item leaves the hash once; a held item is only marked; otherwise list entry, block and all counters go, as the step on values says |
| Caches.Cache.Delete | server.c:393-416 | the same from a valid state: no other item and no other key is touched |
| Caches.Cache.DeletePassby | server.c:384-391 | exactly this marker leaves the hash and its list |
| Caches.Cache.ExpireItems | server.c:426-447 | the least recently used go first: the front of the list stays, behind it only items in use are left, and the loop ends early only at the limit or at a valid item once enough is freed |
| Caches.Cache.ItemExpire | server.c:426-463 | the same, and the markers that stay are the newest ones; the oldest of them is neither expired nor one too many unless the limit was reached |
| Caches.Cache.SharedExpire | server.c:465-486 | the same on the list shared by the servers without a capacity of their own |
| Caches.Cache.GetHandler | server.c:520-565 | a hit if and only if the key names a completely stored, valid item; it is then held, moved to the front, and sent as the request wants it; an invalid item is deleted, and otherwise nothing changes |
| Caches.Cache.PassbyStore | server.c:567-594 | a marker is left if and only if the filter is on and the server holds enough items and bytes |
| Caches.Cache.MakeWay | server.c:636-656 | the store goes ahead if and only if the key is not taken by an item that may not be replaced and the filter lets it through; then the key is free |
| Caches.Cache.PutHandler | server.c:597-719 | which answer a store gets, decided by configuration, clock and hash alone up to lack of space; an accepted one holds a new item under its key, with the recorded length and expiry, at the head of its list; a refused one changes nothing |
| Caches.Cache.Store | server.c:658-719 | on success the item is entered everywhere at once; on failure only evictions happened |
| Caches.Cache.Extend | device.c:375-415 | success is reported only with a block that is large enough, and at once, with nothing deleted, when there is one already |
| Caches.Cache.Allocate | server.c:668-697 | a block for the new item, or none; apart from that only evictions happened |
| Caches.Cache.DeleteHandler | server.c:722-745 | found if and only if the key is in the hash, which then holds everything but this key |
| Caches.Cache.FinalizeRequest | server.c:748-778 | the counts it decrements are positive; an item that was deleted meanwhile, had a disk error or was not stored completely goes now |
| Caches.Cache.WriteDisk | request.c:126-155 | the bytes go directly behind those already written, inside the item; a failing write marks the request |
| Caches.Cache.SendFile | request.c:85-123 | the bytes sent are those on the device at the item's place plus the position in the plan |
| Caches.Cache.PutBody | request.c:223-276 | whatever arrives, the item's bytes grow by exactly what was received; complete if and only if the item is full and no write failed; more than was declared is never written |
| Destroys.AddDevice | device.c:82-100 | the device is in the state with its data and one free block |
| Destroys.DeleteDevice | device.c:111-121 | from then on no item on it can be hit |
| Destroys.Drain | device.c:123-148 | one round leaves only items that somebody holds, if the list is within the limit of a round |
| Destroys.Destroy | device.c:123-158 | the file is open afterwards exactly while a request uses the device; the slot is freed only when nothing refers to it; if the list fits one round, it is freed if and only if no request held an item |
| Responses.NumLen | utils/string.h:28-37 | the number of decimal digits printed |
| Responses.Header200Length | http.c:377-385 | the length-only form is the length of the text |
| Responses.ResolveIsRfc | request.c:382-396 | the resolved range selects exactly the bytes that section 2.1 of RFC 7233 selects, and there is none if and only if that selects nothing |
| Responses.PlanServes | request.c:305-409 | for every stored response and every kind of request, the stretches sent are the whole, the headers, or the stored headers with exactly the selected part of the body |
| Https.AddSegmentJoins | http.c:177-196 | merging adjacent segments preserves the text |
| Https.ParsePut | http.c:263-335 | the header loop on any text: which texts run out of slots, are refused or unfinished (if and only if each), and that for a finished one the segments are the stored headers in order, the empty line and the body read so far, with the recorded header length and the length of the last Content-Length line |
| Https.Preread | request.c:279-303 | the copied text, and that it does not fit the buffer if and only if the header line and the segments are longer than it |
| Https.StoredImage | request.c:279-303 | pre-read part and later bytes together are 200 line, stored headers, empty line, body; the recorded header length is everything before the body |
| Requests.StartInside | http.c:258-264 | the header loop starts inside the received text if and only if the text does not end with the carriage return of the request line |
| Requests.StartOutside | http.c:258-264 | for every method that stores, every URI and every version: a text that ends there makes the loop start one byte behind the terminating NUL |
| Requests.FirstRead | http.c:228-261 | a request line is read as it was written, whatever follows |
| Requests.ParseRequest | http.c:211-335 | what each text gets: method, URI and version errors, incomplete lines, the start outside the text, and the outcome of the header loop |
| Requests.ScanRendered | http.c:264-303 | parsing the header lines a client wrote gives its fields back, one header to the field, and the empty line behind them |
| Requests.StoreUnderstood | http.c:211-335 | for every list of fields: the stored headers are the fields in order without those about the transfer; refused if and only if no length is declared or more body came than declared; out of slots if and only if the stored fields stand in too many runs |
| Requests.FewSlots | request.h:39-41 | if each transfer header occurs at most once, five slots are enough |
| Requests.TenPairsOverrun | http.c:177-196 | ten stored headers each followed by Host: need eleven slots, and nothing refuses that request |
| Requests.PrereadOverrun | request.c:279-303 | a request that fits its buffer and whose stored headers do not fit the pre-read buffer |
| Ranges.ParseRange | http.c:82-145 | the loop computes the range the header text denotes, and an accepted range is never empty or reversed |
| Ranges.RangeRoundTrip | http.c:82-145 | every byte range a client can write, with any spaces behind it, is understood as what it says |
| Ranges.PartAnswer | http.c:367-375 | a range request gets the 206 lines, the stored headers, the empty line and as many bytes as its Content-Length says, which are those the range selects |
| Uploads.ReceiveBody | request.c:223-303 | the upload from the pre-read part to the last byte: when it is complete the item holds exactly the stored response with a body of the declared length; the pre-read buffer is too small if and only if its length says so, and then nothing was written |
| Uploads.UploadServed | server.c:520-565 | whatever happens meanwhile, a GET, HEAD or range request that finds an uploaded item and has sent all of its plan has sent the answer to what it asked for |
| Checksums.Checksum | format.c:35-45 | the loop computes the exclusive or of all words |
| Checksums.SealHolds | format.c:109-112 | the field written by the dump makes the test of the load pass |
| Checksums.OneWord | format.c:35-45 | a change of a single word is noticed if and only if it is a change |
| Formats.Collect | format.c:76-103 | the records are those of exactly the items to be dumped, in address order |
| Formats.Store | format.c:47-123 | an error if and only if there is nothing to dump; otherwise a sealed header and one record for exactly the dumped items, in an order that can be loaded |
| Formats.LoadItem | server.c:332-371 | refused if and only if the record lies before what was loaded; otherwise the item is there as recorded |
| Formats.LoadRecords | format.c:171-186 | every record that is to be kept is loaded: the error branch of the cut is never taken |
| Formats.Load | format.c:125-201 | accepted if and only if magic, version and checksum hold; a refused file changes nothing, an accepted one cannot be loaded twice |
| Formats.RoundTrip | format.c:47-201 | the loaded items are exactly the dumped ones behind the metadata, unexpired, and whose port is served: nothing is missing and nothing is added |
| Formats.StopAndStart | format.c:47-201 | dump and load as one: on a valid cache without requests the dump succeeds if and only if there is something to dump and room for it; the restarted cache is valid, and its new items are exactly the dumped ones that are to come back, with key, place, length and bytes |
| Hashes.HalfSlot | utils/hash.c:157-172 | the slot in the smaller table as hash_get computes it from the larger one |
| Hashes.MoveKeeps | utils/hash.c:101-112 | moving one node during a split keeps every node in its slot of the new table or, from the split position on, of the previous one |
| Hashes.DoubleKeeps | utils/hash.c:85-99 | doubling starts such a stage without losing a node |
| Hashes.PassKeeps | utils/hash.c:114-119 | a finished chain is passed; after the last one the previous table is empty when it is freed |
| Hashes.AsMapSteps | utils/hash.c:122-183 | with unique ids, adding and deleting nodes are insert and remove of the plain map |
| Hashes.LoadBound | utils/hash.c:85-119 | while the table may grow, items stay below ten to the bucket; a migration is over before the next doubling is due |
| Hashes.Hash.Expand | utils/hash.c:79-120 | nodes and count unchanged at every stage; with memory available the load bound is restored |
| Hashes.Hash.Add | utils/hash.c:122-132 | exactly this node more, count one more, load bound kept |
| Hashes.Hash.Lookup | utils/hash.c:155-177 | a node with the id if and only if there is one, at every stage of a split; with unique ids the lookup of the plain map |
| Hashes.Hash.Get | utils/hash.c:149-177 | the same with the migration step before it |
| Hashes.Hash.Remove | utils/hash.c:179-183 | exactly this node less, whichever table it is in |
| Slabs.Emptied | utils/slab.c:94-113 | a block's counter equals its number of cells if and only if none of its cells is in use |
| Slabs.OneEmptyBlock | utils/slab.c:94-113 | at most one block without a cell in use is kept |
| Slabs.Released | utils/slab.c:107-112 | a released block has no cell in use and the list does not run empty |
| Slabs.Slab.Alloc | utils/slab.c:50-92 | the cell handed out is not in use; failure if and only if the list is empty and memory is short |
| Slabs.Slab.Free | utils/slab.c:94-113 | exactly this cell is given back; the block is released if and only if no cell of it is in use and it is not the last of the list |
| Timers.DueIsPrefix | utils/timer.c:136-148 | in a sorted group the due nodes are exactly the first ones: the early break loses nothing |
| Timers.HeadIsLeast | utils/timer.c:101-126 | the least head of the groups is the least deadline of all waiting nodes |
| Timers.Timer.Add | utils/timer.c:154-186 | the node waits with deadline now plus timeout; failure if and only if a new group is needed and memory is short |
| Timers.Timer.Delete | utils/timer.c:189-192 | exactly this node waits no more and is not expired either |
| Timers.Timer.Update | utils/timer.c:195-208 | for every waiting node the group it points to still exists; it gets the new deadline, or is dropped only when memory is short |
| Timers.Timer.Expire | utils/timer.c:129-151 | exactly the nodes with deadline up to now are moved, in order |
| Timers.Timer.Closest | utils/timer.c:101-126 | the distance to the least deadline of all waiting nodes, capped; only empty groups are freed |
| Workers.DoRead | worker.c:307-336 | batch after batch until a short one: every request in the pipe is taken, in whatever number, and the count returned is theirs |
| Workers.StepKeeps | worker.c:252-349 | each of the fifteen steps of master and workers keeps the invariant on owners, counters, ring, registrations and handlers |
| Workers.SingleOwner | worker.c:252-349 | in every reachable state each live request is in exactly one list, pipe or batch; connections_total is the number of live requests; a request in a pipe, a batch or the blocked list has no event or timer |
| Workers.ExitSafe | worker.c:31-37 | a worker destroys itself only when its pipes, lists and batches are empty, the master is not handling what it returned, and none will be dispatched to it |
| Workers.GoneForever | worker.c:196-207 | after that no request ever comes near it |
| Workers.BrokenExactly | request.c:580-596 | one step marks a live request's connection as broken if and only if it cuts the request off or request_clean sweeps it |
| Workers.KeepaliveExactly | request.c:157-206 | over any run in which a request stays connected, its connection counts as broken if and only if it was cut off or swept on the way |
| Workers.BlockedLosesKeepalive | worker.c:252-279 | a run in which nothing fails but one write to a full pipe and after which the master cannot keep the intact connection |
| Workers.NoKeepaliveAfterBlock | worker.c:252-279 | a request that was once blocked is never kept alive |

## Findings

Four properties that the design suggests do not hold of the code. Each has a failing input and the
exact condition under which the code does what is expected.

- The ten slots for stored headers (request.h:39-41) are not checked when headers are added
  (http.c:177-196). `Requests.TenPairsOverrun` gives a request that needs eleven. `Https.ParsePut`
  and `Requests.StoreUnderstood` say when: exactly if the stored headers, counting the final part,
  stand in more than ten runs; `Requests.FewSlots` says that repeating no transfer header suffices.
- The buffer for the pre-read part (request.c:283) is as large as the request buffer, but the 200
  line is written in front of the stored headers. `Requests.PrereadOverrun` gives a request that is
  short enough to be read and too long to be copied. `Https.Preread` and `Uploads.ReceiveBody` say
  when: exactly if the 200 line, the stored headers, the empty line and the body read so far are
  longer than 4096 bytes together.
- After the request line the parser skips two bytes without the test that it makes in the header
  loop (http.c:258-261, compare http.c:280). `Requests.StartOutside` gives the family of texts for
  which the loop starts behind the terminating NUL, in bytes of an earlier request;
  `Requests.StartInside` says that these are all.
- A request that cannot be returned because the pipe is full goes to the blocked list and is
  returned by request_clean, which takes it for one cut off by quitting: it compares the handler
  with request_finalize (request.c:590), but the handler of a blocked request is
  request_do_finalize (worker.c:258-259, request.c:208-221). `Workers.BlockedLosesKeepalive` is such
  a run, `Workers.NoKeepaliveAfterBlock` says that it is always so, and `Workers.KeepaliveExactly`
  says exactly when a connection counts as broken.

One smaller thing is visible in the invariant itself: item_nr of a device keeps counting retired
blocks, as `SpaceModel.Counted` states, because device_return_free_block leaves it alone for them
(device.c:488-497).

## Left out

- MD5: ids are opaque values; collisions are not modelled, and neither is the 16-byte comparison.
- Sockets, epoll and system calls: only their outcomes appear, as step choices and parameters (bytes received or sent, short counts, errors, full pipes).
- utils/list.h and utils/idx_pointer.h: lists are sequences, the index is a partial map.
- conf.c, reload and rollback, including worker_conf_rollback: configuration is a parameter that no operation changes.
- server_clear and server_routine: the former only changes the number that item validity compares, the latter calls the expiry and device methods from time to time.
- Removal of servers while connections are open, and changes of a server's capacity.
- Statistics, logging, the admin port, error pages and the nginx module.
- Dates, Cache-Control and Expires: the expiry a store asks for is a parameter; whether such a header is accepted is the parameter `other` of the parser.
- Failure of small allocations inside device.c and server.c; in utils it is modelled where the code handles it (`memory`).
- Items of 4 GB or more, 64-bit wrap of parsed numbers, and more than 65535 readers of one item: lengths and counts are unbounded below those limits.
- Requests.ParseRequest: ends with `NotStore` for GET, HEAD, PURGE and DELETE, because their header loops store nothing; their Range header is Ranges.ParseRange, their other handlers are not modelled.
- Https.ParsePut: a Content-Length value is digits up to the line end; signs and white space other than blanks, which the library conversion also takes, are not modelled.
- Formats.Load: stated for files with as many records as the header says; a load that stops at a short read skips device_load_post and is not modelled.
- Formats.LoadRecords: a port that is 0 or not served counts as no server; for a 0 the code leaves its table entry uninitialised (format.c:160-164), but the records of a dump refer to listening servers.
- Formats.StopAndStart: the bytes of header and records are the parameter `encode`, of which only the length is used.
- Devices.Space.ReturnFreeBlock: device_kick's copy of the device record, which only serves the reload code, is not modelled.
- Devices.Space.GetFreeBlock: with deleted devices present it may give up after its limited number of tries; when it does is not stated beyond the limit.
- Caches.Cache.Allocate: how many bytes its rounds of eviction free is not stated; it depends on which items are in use.
- Workers.StepKeeps: worker_create is possible on an empty ring only at the start, because current_worker is never reset (worker.c:149-154); the capacity of pipes is a choice at each write.
