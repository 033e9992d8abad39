# nginx core and billing daemon: a model in Dafny

This project models the data structures and protocols at the bottom of an nginx 1.7.2 based RTMP
server, and the billing daemon that ships with it, and proves what they promise:

| component | source | files |
|---|---|---|
| shared-memory mutex | `src/core/ngx_shmtx.c` | `Shmtx` |
| slab allocator | `src/core/ngx_slab.c` | `Words`, `SlabList`, `SlabLayout`, `SlabPages`, `SlabChunks`, `SlabClasses`, `SlabBlocks`, `SlabSteps`, `SlabChunkSteps`, `Slab`, `SlabRegion` |
| red-black tree | `src/core/ngx_rbtree.c`, `.h` | `RbShape`, `RbMemory`, `RbOrder`, `RbDelete`, `RbSplice`, `RbTree` |
| event timers | `src/event/ngx_event_timer.c`, `.h` | `Timers` |
| open file cache | `src/core/ngx_open_file_cache.c` | `FileIndex`, `CacheState`, `OpenFileCache` |
| hash and wildcard hash | `src/core/ngx_hash.c` | `HashPack`, `WildcardHash`, `WildcardLevel` |
| radix tree | `src/core/ngx_radix_tree.c` | `Radix` |
| output chain | `src/core/ngx_output_chain.c`, `src/core/ngx_buf.c` | `OutputBufs`, `OutputChain` |
| calendar, MD5, IPv6 text | `src/core/ngx_times.c`, `ngx_md5.c`, `ngx_inet.c` | `GmTime`, `Md5`, `Digits`, `InetRead`, `Inet6` |
| billing aggregator | `sm_rtmp_billing/rtmpbillingd.c` | `Digits`, `Billing` |

`dafny verify dfyconfig.toml` checks everything.

How the code is represented:

- Pointers are ids. The records they point to are in a map that a class holds as a field and its
  methods reassign; a C function that updates such records is a method of the class. Each class has
  a `Valid` (or `Ok`) predicate that ties the links to ghost fields with their meaning: a tree, a
  partition of the pages, a map of entries, the bytes still owed. What a step does to that meaning
  is stated and proved in lemmas on values.
- The mutex is a transition system: one step is one atomic operation of one process.
- Answers of the file system, of the output filter and of event handlers, and uninitialised memory
  are parameters, so every theorem holds for all of them.
- Integer widths are written out where they matter: 64-bit timer keys, byte counts and octets,
  16-bit sums in the hash builder, the 24-bit reference count and 32-bit use count of cached files.

## Findings

Where the code does not meet a property it is close to, the model keeps the code, a member gives a
concrete case, and another says exactly when the property holds.

- Slab: the tests of `ngx_slab_free_locked` accept a pointer exactly if it is a live block, the first
  page of a free run, or a chunk that holds a page's own bitmap (`Slab.FreeChecksExact`). A run of
  pages that is allocated, freed and freed again is accepted the second time (`Slab.DoubleFree`).
  The bounds test also lets through the addresses from the end of the last page to the end of the
  pool, for which there is no descriptor (`Slab.BoundsLetThrough`). Initialisation places the pages
  inside the region exactly if aligning them leaves their start inside it; with room for two pages
  it does, and `SlabRegion.NoRoom` is a region for one page where it does not.
- Mutex: the death of a process costs a sleeper its wakeup exactly if the process is about to look at
  the lock word or is inside the wakeup function (`Shmtx.DeathStrandsExactly`). Mutual exclusion
  survives deaths anywhere (`Shmtx.MutualExclusion`), and so does progress, exactly unless the owner is
  dead and nobody is left outside the lock to force it (`Shmtx.Progress`). Because a recheck that succeeds does not take
  its ticket back, semaphore tokens can pile up without bound (`Shmtx.TokensPileUp`).
- Open file cache: a request keeps the cache's invariant exactly if the file system does not
  contradict itself about the cached name, that is, unless it calls the open inode a directory, or
  stat and fstat disagree whether it is the same file (`OpenFileCache.OpenFileCache.Open`).
  `OpenFileCache.Contradicted` reaches a state without the invariant in two requests.
- Output chain: a copy takes over the flush and last signs of its buffer only with the last piece, and
  otherwise keeps those of its own last use (`OutputChain.StrayFlush`), exactly if it has any
  (`OutputChain.PieceExact`). Bytes are not affected, and no sign strays while no buffer with data
  carries one (`OutputChain.Context.Output`).
- Radix tree: a delete with a mask of length 0 follows the root's NULL parent exactly if nothing is
  stored but perhaps the entry of length 0 itself (`Radix.RadixTree.Delete`); a new tree is such a
  tree (`Radix.DeleteFaults`). `Find` reads one bit past the key exactly if the whole key is stored.
- Timers: the signed comparison orders a set of keys exactly if they lie in one window of half the
  counter's range (`Timers.WindowExact`); three keys beyond it are not ordered at all
  (`Timers.NoOrderBeyondWindow`).
- IPv6: parsing what was printed gives the address back unless it is ::255.255.255.255 or
  ::ffff:255.255.255.255, whose last four bytes are the parser's error code (`Inet6.WriteAndRead`,
  `Inet6.BroadcastIsRefused`). The texts that are read are those of a grammar and no others
  (`InetRead.ParseExact`); it is wider than section 2.2 of RFC 4291: one colon before an address is
  read over (`InetRead.LeadingColon`), a colon may end a text with "::", dotted numbers may be empty,
  and they are taken modulo 2^64, so that 18446744073709551617.0.0.1 is read as 1.0.0.1
  (`InetRead.AddrExact`, `InetRead.TooLargeIsTaken`).
- Billing: a record is lost exactly if its channel has no row, the table is full and it reports any
  bytes (`Billing.AddBalance`, `Billing.LosesRecord`); apart from that the bytes balance modulo 2^64.
  They balance in true numbers exactly if no counter of a row wraps either (`Billing.AddExact`,
  `Billing.CounterWraps`). A line without five fields adds the previous record a second time
  (`Billing.MalformedLine`, `Billing.MalformedExact`), and as the first line of a read it adds what
  was in memory (`Billing.JunkIsBilled`).
- Hash: the sums in the size search are 16-bit. The test of a size is right for all lists of names
  exactly if a bucket has less than half that range (`HashPack.ShortSumsExact`); beyond it two long
  names are accepted for a bucket that cannot hold them (`HashPack.WrapAccepted`). The rounding to
  cache lines loses no width exactly if the rounded bucket size is a 16-bit number
  (`HashPack.WidthExact`).

## Model

| member | source | states |
|---|---|---|
| `Shmtx.Safety` | src/core/ngx_shmtx.c:62-195 | In every state reachable by any interleaving of any number of processes: at most one holds the lock; wait count plus wakeups under way plus semaphore value cover all registered waiters; never is the lock free with somebody asleep, the semaphore empty, nobody about to try and no wakeup under way. |
| `Shmtx.MutualExclusion` | src/core/ngx_shmtx.c:62-160 | Along every run in which processes may die anywhere, at most one process holds the lock, and the lock word names it. |
| `Shmtx.Progress` | src/core/ngx_shmtx.c:62-195 | In every reachable state in which some process wants the lock there is a continuation in which one of those that wanted it holds it, if and only if it is not so that the owner is dead and all others are dead or wait for the lock. |
| `Shmtx.ForceReleases` | src/core/ngx_shmtx.c:148-160 | A dead owner's lock is freed, by any process that is neither dead nor waiting for the lock, with one forced unlock. |
| `Shmtx.TryLockTakes` | src/core/ngx_shmtx.c:62-66 | In every reachable state an idle process that calls trylock alone gets a free lock, and nothing else changes. |
| `Shmtx.TryLockHonest` | src/core/ngx_shmtx.c:62-66 | Whatever the others do, trylock fails only at a look at which the lock is taken, and succeeds only at one at which it is free. |
| `Shmtx.CallAlone` | src/core/ngx_shmtx.c:62-195 | Every run in which one process alone ends a trylock, unlock, forced unlock or wakeup leaves what that call promises: the lock taken if it was free; the lock freed if it was the caller's or the given one's; one wait count turned into one semaphore token if there was one. |
| `Shmtx.CallReturns` | src/core/ngx_shmtx.c:62-195 | In every state that meets the invariant there is such a run. |
| `Shmtx.DeathStrandsExactly` | src/core/ngx_shmtx.c:69-195 | A death at a program point can leave a sleeper without any wakeup if and only if the point is before the lock word is looked at or inside the wakeup function. |
| `Shmtx.TokensPileUp` | src/core/ngx_shmtx.c:98-126 | For every k a state with k unused semaphore tokens, a free lock and nobody waiting is reachable. |
| `Slab.SlabPool.constructor` | src/core/ngx_slab.c:98-132 | A new pool of some pages is valid, is one free run of all of them, and holds no block. |
| `SlabRegion.Layout` | src/core/ngx_slab.c:94-137 | The list heads and the page descriptors lie before the first page, which is aligned; the pages lie before the end of the region if and only if their start does, which is so with room for two pages and descriptors; at most two pages are lost. |
| `SlabRegion.NoRoom` | src/core/ngx_slab.c:111-134 | A region for one page and its descriptor whose only page lies behind its end. |
| `SlabRegion.Init` | src/core/ngx_slab.c:72-145 | A region becomes a valid pool without blocks, all of it inside the region, if and only if a page is counted on and lies inside; with room for three pages and descriptors it does. |
| `Slab.SlabPool.Alloc` | src/core/ngx_slab.c:155-398 | A successful call returns the address of a block that was not there, at least as large as requested, and no other block changes. For sub-page requests it is the minimum size or less than twice the request, for page requests whole pages and less than a page above it. A failed call changes nothing: a page request fails exactly if every free run has fewer bytes than requested, a smaller one exactly if its class has no listed page and no page is free. |
| `Slab.SlabPool.AllocPages` | src/core/ngx_slab.c:621-672 | Succeeds exactly if some free run has m pages; the first run of the free list that is long enough gives them and their block; nothing else changes. |
| `Slab.SlabPool.AllocListed` | src/core/ngx_slab.c:195-328 | If a class has a listed page, its first one yields a chunk that was free. |
| `Slab.FirstRoom` | src/core/ngx_slab.c:209-216 | In each of the three bitmap encodings the scan finds the first clear bit. |
| `Slab.SlabPool.Free` | src/core/ngx_slab.c:412-618 | Freeing a live block removes exactly that block and keeps the pool valid; an address without a descriptor and an address accepted without a live block are each told by an exact condition; anything else is refused and changes nothing. |
| `Slab.FreeChecksExact` | src/core/ngx_slab.c:422-581 | The tests accept an address inside the pages if and only if it is a live block, the head of a free run, or a chunk of a page's own bitmap. |
| `Slab.DoubleFree` | src/core/ngx_slab.c:565-590 | A page allocated and freed is accepted by the tests once more although no block is there. |
| `Slab.BoundsLetThrough` | src/core/ngx_slab.c:422-428 | In every valid pool the bounds test passes an address without a page descriptor if and only if it lies between the end of the last page and the end of the pool, and there is such an address. |
| `Slab.SlabPool.FreeAll` | src/core/ngx_slab.c:412-753 | Freeing all live blocks, in any order, leaves one free run of all pages and no block. |
| `SlabBlocks.BlocksDisjoint` | src/core/ngx_slab.c:155-398 | In every valid state two live blocks do not overlap. |
| `SlabBlocks.BlocksInside` | src/core/ngx_slab.c:155-398 | A live block lies inside the pages and never overlaps the bitmap at the head of a page of small chunks. |
| `SlabBlocks.AllFreedIsOneRun` | src/core/ngx_slab.c:675-753 | A valid pool without blocks is one maximal free run with the free list and all class lists as after initialisation. |
| `RbTree.RbTree.Insert` | src/core/ngx_rbtree.c:24-154 | The linked nodes again form a red-black tree with correct parent links; its in-order sequence gained exactly the node, as a sequence and as a multiset, behind all that are not greater in a sorted tree, and stays sorted. |
| `RbTree.RbTree.Delete` | src/core/ngx_rbtree.c:157-322 | The linked nodes again form a red-black tree with correct parent links; its in-order sequence lost exactly the node, as a sequence and as a multiset, and stays sorted. |
| `RbTree.RbTree.First` | src/core/ngx_rbtree.h:73-81 | The leftmost node is the first of the in-order sequence. |
| `RbTree.RbTree.NodesOnce` | src/core/ngx_rbtree.c:24-322 | Each node is in the tree once, with the key its record holds, and the sentinel is not in it. |
| `RbOrder.Logarithmic` | src/core/ngx_rbtree.c:24-322 | The height of a red-black tree is at most twice the logarithm of its number of nodes plus one, also where the height is odd. |
| `Timers.SignedExact` | src/core/ngx_rbtree.c:137-140 | For times less than half the counter's range apart the signed difference of the wrapped keys is the true difference. |
| `Timers.WindowOrder` | src/core/ngx_rbtree.c:122-154 | The keys of deadlines in one window of half the range are weakly ordered by the comparison, so the tree is sorted by deadline across the wrap. |
| `Timers.WindowExact` | src/core/ngx_rbtree.c:122-154 | The comparison is a weak order on a set of keys if and only if the keys lie in one window of half the range. |
| `Timers.NoOrderBeyondWindow` | src/core/ngx_rbtree.c:122-154 | Three keys that lie in no window and are not ordered. |
| `Timers.Timers.AddTimer` | src/event/ngx_event_timer.h:61-102 | The event's deadline becomes now plus the timer, unless it had one less than the lazy delay away, which then stays. |
| `Timers.Timers.DelTimer` | src/event/ngx_event_timer.h:35-58 | The event has no deadline any more and no other changes. |
| `Timers.Timers.FindTimer` | src/event/ngx_event_timer.c:51-73 | The wait of the earliest deadline, 0 if it is past, and infinity if there is none. |
| `Timers.Timers.ExpireTimers` | src/event/ngx_event_timer.c:76-158 | With handlers that add and delete timers but none that is already due: no due timer is left; the events that fired were due, fired once each, in the order of their deadlines; every event that was due fired or was touched by the handler of one that did; exactly the fired events are marked; and the deadlines afterwards are the old ones with, in the order of firing, each fired event taken out and its handler's actions applied. |
| `Timers.Survives` | src/event/ngx_event_timer.c:76-158 | An event that does not fire and that no handler of a fired event touches keeps its deadline, or stays without one. |
| `Timers.NothingElse` | src/event/ngx_event_timer.c:76-158 | Every deadline there is afterwards is an old one of an event that did not fire, or was set by the handler of a fired event. |
| `Timers.Timers.Tick` | src/event/ngx_event_timer.c:70-72 | Time passes, wrapping the counter, and keeps the timers valid with the same deadlines. |
| `Timers.AcrossTheWrap` | src/event/ngx_event_timer.c:51-158 | A timer set five milliseconds before the counter wraps is waited for and fires after it. |
| `FileIndex.FileIndex.Lookup` | src/core/ngx_open_file_cache.c:1187-1223 | Lookup by hash and name finds a record if and only if one of that name is indexed, and then that one. |
| `FileIndex.FileIndex.Insert` | src/core/ngx_open_file_cache.c:1145-1184 | The index gains exactly the record under its name. |
| `CacheState.HeldIsOpen` | src/core/ngx_open_file_cache.c:143-486 | Between calls a descriptor that a request holds is open, is its record's descriptor, belongs to no other record, and the record's count is the number of its holders. |
| `CacheState.NothingLost` | src/core/ngx_open_file_cache.c:143-486 | Between calls every record is cached or held, and a descriptor is open if and only if a record has it. |
| `CacheState.SizesAgree` | src/core/ngx_open_file_cache.c:360-430 | The counter, the index and the expire queue have the same size. |
| `CacheState.ForcedExpiry` | src/core/ngx_open_file_cache.c:1094-1142 | A forced expiry of a cache that is not empty makes room. |
| `OpenFileCache.OpenFileCache.Open` | src/core/ngx_open_file_cache.c:143-486 | For every answer of the file system: the invariant holds afterwards if and only if the file system did not contradict itself; then the caller, and nobody else, gained the descriptor it was given; a valid record answers and stays as it was, used and held once more; otherwise the file system answers, which is cached as given, in the name's record, used once more modulo 2^32, or in a new one, used once, or not at all; records of other names go only to make room, by the rule of ExpireOld; the size bound is kept. |
| `OpenFileCache.SecondAnswer` | src/core/ngx_open_file_cache.c:211-268 | Two requests for a name: if the file system answered the first and the answer was cached, and the second comes within the validity, with the same symlink setting and no or the same inode number, it gets the first one's result, error, descriptor and kind, and inode number if it was a success, whatever the file system says by then, and the descriptor is open. |
| `OpenFileCache.AnsweredAlike` | src/core/ngx_open_file_cache.c:230-268 | The same for an answer cached at any time before, which stays cached, with one more use. |
| `OpenFileCache.AnswerIsCached` | src/core/ngx_open_file_cache.c:352-486 | An answer of the file system is cached if it is a success; an error is cached only if the caller asked for that, and then is if there is memory; the record has it all, with the time, one use more for a known name and one for a new. |
| `OpenFileCache.AskedAfresh` | src/core/ngx_open_file_cache.c:217-358 | Once the validity has passed, or the inode number asked for or the symlink setting differs, or the descriptor was closed for want of use, the answer is the file system's: the error of stat if the name has an open file or a directory was asked for and stat fails; the open descriptor if stat finds the same inode; else what opening and looking at the file says. Only the memory for a new record can be missing. |
| `OpenFileCache.OthersRemembered` | src/core/ngx_open_file_cache.c:360-364 | A request for one name leaves what is cached of another; it goes only if the cache is full and the name is new, and, unless it is inactive, only as the least recently used. |
| `OpenFileCache.OpenFileCache.Release` | src/core/ngx_open_file_cache.c:1017-1074 | A request gives back what it holds: the invariant is kept, exactly its own hold ends, the record's descriptor is closed if it is the last one and the file was used too little, and then up to two inactive records go. |
| `OpenFileCache.OpenFileCache.ExpireOld` | src/core/ngx_open_file_cache.c:1094-1142 | From the tail of the queue at most three records go, the first one by force if asked for, the others only if inactive, stopping at the first active one; nothing else changes. |
| `OpenFileCache.Contradicted` | src/core/ngx_open_file_cache.c:275-341 | Two requests, the second with an inode that turned from file to directory, lead from a new cache to a state without the invariant. |
| `HashPack.HashInit` | src/core/ngx_hash.c:248-452 | While no sum and no width leaves 16 bits, the table has the first fitting size from the start value, or fails exactly if a name is too long or no size fits; elements and terminators lie where the buckets lead, inside the block, and none overwrites another. |
| `HashPack.FindSize` | src/core/ngx_hash.c:260-313 | The size search returns the first size that passes the 16-bit test, or 0 exactly if there is none; while no sum wraps this is the first size at which every bucket's elements fit. |
| `HashPack.TrySize` | src/core/ngx_hash.c:287-306 | The test of one size with 16-bit sums; while no sum wraps it passes if and only if every bucket's elements fit. |
| `HashPack.ShortSumsExact` | src/core/ngx_hash.c:287-306 | The test tells for every list of names and every size whether the elements fit if and only if a bucket has less than half the range of 16 bits. |
| `HashPack.WrapAccepted` | src/core/ngx_hash.c:287-306 | Two names of 32752 bytes pass the test for one bucket that cannot hold both. |
| `HashPack.WidthExact` | src/core/ngx_hash.c:337-347 | For every bucket size, rounding to cache lines loses no width if and only if the rounded bucket size is below 2^16. |
| `HashPack.Find` | src/core/ngx_hash.c:12-49 | Walking the bytes of a packed bucket returns the value of the first element of that bucket with the name, else nothing. |
| `HashPack.FindIffSupplied` | src/core/ngx_hash.c:12-49 | With the builder's hash this is the value of the first supplied name that equals it in lower case, and there is one if and only if that name was supplied. |
| `WildcardHash.WildcardInit` | src/core/ngx_hash.c:455-597 | The nested tables answer every request as a search of the list for its longest matching entry does. |
| `WildcardHash.FindWcHead` | src/core/ngx_hash.c:52-143 | The recursive lookup from the right end of the name answers what the nested tables answer for its labels in reverse order. |
| `WildcardHash.HeadLookup` | src/core/ngx_hash.c:52-143 | The lookup returns the value of the longest matching entry, and nothing if and only if no entry matches. |
| `WildcardHash.WildcardMeaning` | src/core/ngx_hash.c:869-901 | In terms of names as configured: "*.x" matches exactly the names that end in ".x", and ".x" also x itself. |
| `WildcardHash.BestIsUnique` | src/core/ngx_hash.c:455-597 | The longest matching entry is unique. |
| `WildcardHash.Convert` | src/core/ngx_hash.c:881-901 | The stored form of a configured name is its labels in reverse order. |
| `WildcardLevel.FindPacked` | src/core/ngx_hash.c:82-140 | A level packed by the hash builder, with the two low bits of each pointer set as its slot says, is searched with the same result as the list of its slots. |
| `Radix.RadixTree.Insert` | src/core/ngx_radix_tree.c:108-170 | Busy if and only if the prefix is stored; otherwise the stored prefixes gain exactly it; every leaf but the root carries a value. |
| `Radix.RadixTree.Delete` | src/core/ngx_radix_tree.c:173-233 | Follows a NULL pointer if and only if the mask has length 0 and nothing is stored but perhaps the entry of length 0; otherwise succeeds if and only if the prefix is stored, and then exactly it goes; nodes without use are pruned to the free list. |
| `Radix.DeleteFaults` | src/core/ngx_radix_tree.c:173-233 | A delete with a mask of zeros from a new tree follows a NULL pointer. |
| `Radix.RadixTree.Find` | src/core/ngx_radix_tree.c:236-263 | The value of the longest stored prefix of the key; a bit behind the key is read if and only if the whole key is stored. |
| `OutputChain.Context.constructor` | src/core/ngx_output_chain.c:41-48 | A new context is valid with nothing submitted. |
| `OutputChain.Context.Output` | src/core/ngx_output_chain.c:41-216 | For every filter, after every call: what the filter was ever given and what is left in the input account for all that was ever submitted, bytes and the flush, last and sync signs behind them, in order, with nothing besides but stray signs, and none if no data buffer carries a sign; every buffer given to the filter is special or meets the context's demands; the result is the filter's last answer, but AGAIN while input is left. After OK and AGAIN the context is valid, and input is left only if all buffers that may be made are made and none is free, and then the filter has still to take the first busy one; with a filter that takes all and a buffer allowed, nothing is left anywhere. |
| `OutputChain.Arrives` | src/core/ngx_output_chain.c:41-216 | What that account means: between what was submitted and what was given and is left no byte is lost, repeated or out of order; nothing at all differs if and only if no sign strayed; without input left the bytes given are the bytes submitted. |
| `OutputBufs.TextBytes` | src/core/ngx_buf.h:123-136 | The bytes in what a chain stands for are the bytes of its buffers, one after the other. |
| `OutputChain.PieceExact` | src/core/ngx_output_chain.c:482-509 | A piece copied to an empty buffer and the rest say what the whole buffer said if and only if it is the last piece or the buffer it goes to carries no sign. |
| `OutputChain.StrayFlush` | src/core/ngx_output_chain.c:505-509 | A buffer that was flushed, taken back and filled again puts its old flush into the middle of another buffer. |
| `OutputChain.Context.AsIs` | src/core/ngx_output_chain.c:219-262 | A buffer is passed on if and only if, with its file dropped where need be, it is special or meets the context's demands. |
| `OutputChain.Context.AlignFileBuf` | src/core/ngx_output_chain.c:332-379 | For a file read past the cache a buffer of its own is made unless the position is at a sector and there is enough for a full buffer; it takes what there is, or just enough for the next read to begin at the next sector. |
| `OutputChain.Context.GetBuf` | src/core/ngx_output_chain.c:382-455 | A new buffer of the context has the configured size and is used again, or is for just the last buffer of a chain; it is at most a quarter larger than configured. |
| `OutputChain.Context.FillOut` | src/core/ngx_output_chain.c:90-195 | One filling keeps what is ahead of the filter, puts only what it can deal with into the output, and stops only without input, or without a free buffer and with something out or all buffers made. |
| `OutputChain.Context.CopyBuf` | src/core/ngx_output_chain.c:458-598 | After a copy the output with the copy and the input without it still stand for the same, but for stray signs; the copy is in the file exactly if that may be sent. |
| `OutputChain.CopyPiece` | src/core/ngx_output_chain.c:458-598 | A piece of a buffer, from memory or from the file, as large as there is room for, is in the copy, and the rest is left; the last piece carries the buffer's signs; the copy is in memory, and in the file, at the same place, exactly if it may be sent from there. |
| `OutputChain.Context.UpdateChains` | src/core/ngx_buf.c:183-220 | The busy chain is what is left of the old one and the output behind their longest prefix of used-up buffers; the free chain gained exactly those of that prefix with the context's tag, in front and emptied; no other buffer changes. |
| `OutputBufs.Recycled` | src/core/ngx_buf.c:200-219 | Taking back the first busy buffer, once it is used up, touches nothing that is owed or in the input. |
| `OutputBufs.Copied` | src/core/ngx_output_chain.c:458-598 | A copy moves a part of the first input buffer to the output and keeps the order, but for stray signs; none stray if no data buffer carries a sign. |
| `GmTime.GmTime` | src/core/ngx_times.c:299-389 | For every time the result is a valid Gregorian date and time of day that stands for exactly that time, with its weekday. |
| `GmTime.DateUnique` | src/core/ngx_times.c:299-389 | No other date and time stands for the same time, so the result is the only one possible. |
| `GmTime.YearEstimate` | src/core/ngx_times.c:326-338 | The estimate of the March-based year is the true one or one more. |
| `Md5.DigestOf` | src/core/ngx_md5.c:22-115 | However a message is split over updates, the digest is the block function folded over the message padded as in sections 3.1 and 3.2 of RFC 1321, written as in section 3.5. |
| `Md5.Md5.Update` | src/core/ngx_md5.c:34-62 | The message of the context grows by the data. |
| `Md5.Md5.Final` | src/core/ngx_md5.c:65-115 | The result is the digest of the context's message. |
| `Md5.PadLength` | src/core/ngx_md5.c:70-83 | The padding ends at a block boundary with eight bytes left for the length. |
| `Md5.OutputIs` | src/core/ngx_md5.c:97-114 | The digest's four groups of four bytes, read low-order byte first, are the four words. |
| `Inet6.RoundTrip` | src/core/ngx_inet.c:17-359 | Parsing the printed form of an address gives it back, except in dotted form with the last four bytes 255, where it is refused. |
| `Inet6.Ntop` | src/core/ngx_inet.c:285-359 | The text is the printed form that elides the leftmost of the longest runs of at least two zero groups (section 2.2 of RFC 4291, section 4.2 of RFC 5952), and empty if the room is too small. |
| `Inet6.RunIsUnique` | src/core/ngx_inet.c:296-322 | There is one such run at most. |
| `Inet6.BroadcastIsRefused` | src/core/ngx_inet.c:109-123 | The address ::ffff:255.255.255.255 is printed and not read back. |
| `Inet6.WriteAndRead` | src/core/ngx_inet.c:57-359 | Printing an address and parsing the text gives it back if and only if it is not one of ::255.255.255.255 and ::ffff:255.255.255.255. |
| `InetRead.Inet6Addr` | src/core/ngx_inet.c:57-171 | For every text: the parser answers with an address of 16 bytes if and only if the text denotes it, that is, after an optional colon it is groups of one to four hexadecimal digits with colons between them, at most one "::", perhaps a dotted address at the end behind a colon or, with "::", nothing behind the last colon for a word 0, making eight words, or at most seven around "::", which stands for the missing zeros. |
| `InetRead.ParseExact` | src/core/ngx_inet.c:57-171 | The scan of lines 75-170 reads a text as an address if and only if the text denotes it. |
| `InetRead.FormRead` | src/core/ngx_inet.c:80-170 | A text of groups, "::" and tail is read with its meaning if it has the right number of words and good octets, else refused. |
| `InetRead.InetAddr` | src/core/ngx_inet.c:17-52 | For every text: an IPv4 address is answered if and only if the text is four strings of decimal digits with dots between them, each below 256 modulo 2^64, and not 255.255.255.255. |
| `InetRead.LeadingColon` | src/core/ngx_inet.c:75-78 | A colon before a text that begins with none makes no difference. |
| `InetRead.AddrExact` | src/core/ngx_inet.c:17-52 | The octet loop reads a text as an address if and only if the text is that dotted address. |
| `InetRead.TooLargeIsTaken` | src/core/ngx_inet.c:32-36 | A first number of 2^64 + 1 is read as 1. |
| `Billing.AddBalance` | sm_rtmp_billing/rtmpbillingd.c:419-439 | A record keeps the balance per channel modulo 2^64, bytes reported equal bytes flushed plus bytes pending, if and only if it has a place in the table or reports no bytes. |
| `Billing.AddExact` | sm_rtmp_billing/rtmpbillingd.c:419-439 | It keeps the balance in true numbers if and only if it has a place where neither counter reaches 2^64, or reports no bytes. |
| `Billing.AllBalanced` | sm_rtmp_billing/rtmpbillingd.c:407-440 | While the channels between two flushes are at most as many as the rows, any sequence of records keeps the balance modulo 2^64 and the rows' distinct channels. |
| `Billing.AllExact` | sm_rtmp_billing/rtmpbillingd.c:407-440 | It then keeps the balance in true numbers if and only if for no channel the bytes pending and reported reach 2^64. |
| `Billing.LastTimes` | sm_rtmp_billing/rtmpbillingd.c:419-439 | After any sequence of records each row carries the timestamp and interval of the last record of its channel, or its own if there is none. |
| `Billing.LosesRecord` | sm_rtmp_billing/rtmpbillingd.c:419-439 | A table of one row that is taken loses the bytes of a second channel. |
| `Billing.CounterWraps` | sm_rtmp_billing/rtmpbillingd.c:430-437 | Two records of one channel with 2^64 bytes together leave the balance right modulo 2^64 and wrong in true numbers. |
| `Billing.MalformedLine` | sm_rtmp_billing/rtmpbillingd.c:380-440 | A line without five fields leaves the previous record, whose second addition breaks the balance modulo 2^64 if and only if it has a place and reports bytes. |
| `Billing.MalformedExact` | sm_rtmp_billing/rtmpbillingd.c:380-440 | The balance in true numbers is broken in the same cases. |
| `Billing.LineBack` | sm_rtmp_billing/rtmpbillingd.c:335-394 | The line written for a record is parsed to five fields and exactly that record. |
| `Billing.FileBack` | sm_rtmp_billing/rtmpbillingd.c:448-497 | A flushed file holds exactly the records it was written for. |
| `Billing.SentBalance` | sm_rtmp_billing/rtmpbillingd.c:407-440 | With a row for each channel any mix of records sent and records added again keeps the balance modulo 2^64 if and only if no channel's bytes added differ from its bytes sent. |
| `Billing.SentExact` | sm_rtmp_billing/rtmpbillingd.c:407-440 | It keeps the balance in true numbers if and only if in addition no channel's bytes pending and sent reach 2^64. |
| `Billing.JunkIsBilled` | sm_rtmp_billing/rtmpbillingd.c:396-439 | Whatever storable record with bytes from clients is in memory, a first line without five fields adds it to a new table and breaks the balance. |
| `Billing.Table.ReadBillingInfo` | sm_rtmp_billing/rtmpbillingd.c:396-446 | For lines with and without five fields and any memory before: the occupied slots stay a prefix with distinct channels; the rows are the old ones with the lines' records added in order, and each carries the timestamp and interval of the last record of its channel; with room for all channels the balance is kept, modulo 2^64 and in true numbers, under the exact conditions of SentBalance and SentExact. |
| `Billing.HoldsYields` | sm_rtmp_billing/rtmpbillingd.c:396-497 | A file of records that is read adds exactly its records, each as sent. |
| `Billing.Table.Flush` | sm_rtmp_billing/rtmpbillingd.c:448-497 | One line for each row, in order; the table is empty; the balance is kept, modulo 2^64 and in true numbers. |

## Left out

- Slab.SlabPool.Free: stops where the source goes on with a descriptor that does not exist or with a block that is not live; nothing is said about the pool afterwards.
- Slab.SlabPool.constructor: starts from the number of pages, which SlabRegion.Layout computes. Pages have 4096 bytes, words 64 bits, and addresses are offsets from the first page.
- SlabRegion.Init: the pool that the source makes without a page, or with a page outside the region, is no pool here.
- Shmtx.Safety: sem_post does not fail; at the largest semaphore value, which by Shmtx.TokensPileUp can be reached, it would, and the ticket of that wakeup would be lost.
- Slab: the pool's mutex around each call, the junk fill and the log messages.
- RbTree.RbTree.Insert: the insert function of a tree is represented by its order; the three insert functions of the source differ in nothing else.
- OpenFileCache.OpenFileCache.Open: vnode events are off, the two symlink settings are one number, read-ahead, direct I/O, size and times of files are not recorded, and a record's count stays below its 24 bits for the requested name.
- OpenFileCache: the path without a cache (lines 159-198) and the cleanup of the whole cache at exit.
- HashPack.HashInit: the fallback when no size fits (lines 315-320) is a failure here; inputs with which a 16-bit sum or width can wrap are excluded, and HashPack.ShortSumsExact and HashPack.WidthExact say which those are; the values are not NULL.
- WildcardHash.WildcardInit: names are sorted by ngx_dns_strcmp, distinct and lower case, of characters above the blank, and "*.x" and ".x" are not given together, as the callers provide; the tail wildcard tables work the same way on unreversed names.
- Radix.RadixTree.Insert: memory does not run out, so a failure half way is not modelled; the preallocated tree is not modelled.
- Radix.RadixTree.Delete: nothing is modelled after the NULL pointer is followed. The 128-bit functions are the same walk over bytes.
- Timers.Timers.ExpireTimers: handlers may not add a timer that is already due, with which the loop need not end.
- OutputChain.Context.Output: no asynchronous or failing file reads and no allocation failure; chain links are not recycled but are the sequence of their buffers; the size limit of sendfile is off; a buffer without bytes that is not special is dropped with its signs, as in the source; after an ERROR or DONE of the filter only the account is promised.
- GmTime.GmTime: the year is not truncated to the width of its field.
- Md5.DigestOf: the 64 steps of the block function are a parameter.
- Inet6.Ntop: room for the longest text is checked at once, as in the source, so no length is tracked.
- Billing.Table.ReadBillingInfo: reads end at the end of a line; a record, or uninitialised memory before a first line without five fields, with timestamp 0 or an empty name, which leaves its slot free, is not modelled, nor a name longer than its field or what a partial read does to the next one.
- Billing.MalformedLine: the previous record occupies its slot, that is, its timestamp is not 0 and its name not empty; so for Billing.MalformedExact.
- Billing: the thread that flushes, its timing and its file names, and the sockets.
- Sockets, event loops, process control, DNS, TLS, the HTTP, mail and RTMP modules: not modelled.
