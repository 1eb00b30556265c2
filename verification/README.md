# Lohalloc, modelled and proved

Lohalloc is a memory allocator with three deep mechanisms: a binary buddy allocator whose free
blocks live in three access tiers, a lock-free arena that recycles its chunks, and a frozen routing
plane built around a minimal perfect hash. This project models those three, the magazines, fast lanes
and training policy around them, and proves what they are for. Nothing was executed: every claim is a
Dafny contract, and `dafny verify dfyconfig.toml` covers the whole project.

## What is proved

* **Buddy allocator** (`Bits`, `Blocks`, `Tiling`, `Links`, `BuddyTiers`, `Buddy`). The class `BuddyHeap`
  has the code's own fields and loops. After any sequence of operations free and live blocks tile the
  mapped regions exactly, every bit agrees with exactly one tier, the seven out-of-band lists sharing
  one pair of link arrays are well formed, a lookup agrees with a scan, and drains stay within a
  budget paid for by frees. `Valid()` is that invariant; every method requires and ensures it.
* **Arena recycling** (`ArenaProtocol`, `ArenaCounts`, `ArenaWindows`, `ArenaSafety`). A state machine
  of 30 atomic actions over any number of threads and chunks, with stale descriptors, arbitrary
  relaxed cursor loads and stale reads of `freed`. No two live blocks ever overlap and a cursor is
  lowered only over an empty, unpinned chunk. `SoloArena` is the same arena as one thread's mutable
  object, with the chunk chain, refusals and the exhaustion latch exactly characterised.
* **Frozen routing** (`Bytes`, `Entries`, `Chd`, `HashTable`, `TableMeaning`, `Routing`, `ModelFile`).
  The mixing function is a parameter: whenever construction succeeds, lookup on the packed bytes is
  the last-wins map of the input. Saving and loading is the identity on the whole plane, and the size
  class shortcut agrees with the full lookup.
* **Magazines** (`Magazines`, `MagazineProtocol`, `BuddyMagazines`). Every block is in exactly one
  place in every run of any number of threads and stripes, and each flush returns each block once to
  the stripe that owns it. Allocating and freeing through a magazine over `BuddyHeap` objects are runs
  of the protocol.
* **Fast lanes and pin cache** (`Lanes`, `HotTls`). The lanes refine the classic path for every table, and a
  pinned verdict is always what a fresh lookup would say.
* **Training policy and freezing** (`Bandit`, `Freeze`). The gating variance is exact, overrides are
  made exactly when justified, at one depth per site, monotonically in the threshold; distillation
  emits exactly the unanimous sites. Of the frozen tables: no flag without a sibling, no pin past a
  context, no unservable verdict, and a pinned verdict is what the full route answers, except exactly
  where the distilled table alone demotes.

## How the model stands for the code

* Code that mutates objects in loops is a class with methods (`BuddyHeap`, `Magazine`, `HotTls`, `BumpArena`,
  `ArmStats`) or a loop over arrays proved against a function; the concurrent protocols are step
  relations on values.
* Addresses are naturals. Fixed-size tables of the buddy allocator are fields of sequence and map
  type, which the code never aliases. Magazine slots, the pin cache and the hash construction's
  scratch tables are arrays.
* Machine words that matter are bounded explicitly (`u8`, `u32`, `u64`), with wrap-around, truncating
  shifts and 32-bit counts written out. Rewards are reals.
* `mmap` is an input: a fresh aligned region or chunk, or a refusal. Clocks, stack walks and
  environment latches are inputs or fixed.
* `freed` may be read stale; a compare-exchange may fail spuriously; `spans` and `intent` are
  sequentially consistent.

## Where the code and its own words differ

* `perfect_hash.rs` calls the file version 3 in its header comment; the code writes and accepts
  only 4, and the model does too.
* The comment on `alloc_order` promises a lazy coalesce of everything freed before a fresh region;
  the code maps a region straight away, and so does the model.
* A class verdict is documented as what the full path would pick. For a key in no table that holds
  except within 48 bytes below 16 KiB and 1 MiB (`Routing.UnknownKeyAgrees`), where the two paths
  name different backends and the same one serves in the end (`Routing.StraddleServesSame`).
* `BumpArena::alloc` says it returns nothing only for an over-large request or at the cap. It also
  does when the kernel refuses a chunk. And at the cap it can refuse although the last chunk is fully
  freed: advancing along the chain makes that chunk the current one, which the recycle scan skips.
  `SoloArena.BumpArena.AllocDirect` states exactly when it refuses, and
  `SoloArena.RefusedBesideQuiet` drives a new arena into the case.
* `distill` says that distillation never changes a routing decision. It can: each table takes its demotion
  shares of its own total, so a site may be demoted in the distilled table alone
  (`Freeze.TablesAgreeIff`, `Freeze.DemotedAloneWitness`).
* `FrozenRouting`'s flags byte keeps six bits; `from_entries_flagged` takes eight and drops two.

## Model

| member | source | states |
|---|---|---|
| Blocks.BuddyGeometry | crates/lohalloc-alloc/src/buddy.rs:742-748 | For an aligned block below the top order, flipping the size bit of the address gives an aligned block of the same region one size above or below, and masking to the next size gives the lower of the two |
| Blocks.RegionBaseIsMask | crates/lohalloc-alloc/src/buddy.rs:1127-1133 | Clearing the low 22 bits of an address is its 4 MiB region base |
| Blocks.SplitGeometry | crates/lohalloc-alloc/src/buddy.rs:598-604 | The two halves of a block are aligned blocks of the next smaller order in the same region |
| Blocks.BitPosInjective | crates/lohalloc-alloc/src/buddy.rs:272-305 | Two blocks of one region never share a bitmap bit, and every bit index is inside the bitmap |
| Blocks.SlotGeometry | crates/lohalloc-alloc/src/buddy.rs:150-184 | A block of order 10 or more starts exactly at its side-table slot, and the slot is below 256 |
| Tiling.TilesSplit | crates/lohalloc-alloc/src/buddy.rs:598-604 | Splitting a block of an exact tiling into its halves leaves an exact tiling |
| Tiling.TilesMerge | crates/lohalloc-alloc/src/buddy.rs:735-752 | Replacing two buddies of an exact tiling by their parent leaves an exact tiling |
| Tiling.TilesGrow | crates/lohalloc-alloc/src/buddy.rs:1075-1121 | Adding a fresh region as its four top blocks keeps the tiling exact |
| Tiling.BytesUnion | crates/lohalloc-alloc/src/buddy.rs:1164-1264 | Sizes of disjoint sets of blocks add up |
| Tiling.OneBlockPerAddress | crates/lohalloc-alloc/src/buddy.rs:1164-1264 | In a tiling no address starts two blocks |
| Links.PushFront | crates/lohalloc-alloc/src/buddy.rs:805-816 | Linking a new node at the head of a well-formed doubly linked list gives the list with that node in front |
| Links.PushBack | crates/lohalloc-alloc/src/buddy.rs:880-903 | Linking a new node at the tail gives the list with that node at the end |
| Links.Cut | crates/lohalloc-alloc/src/buddy.rs:822-835 | Unlinking any node of a well-formed list gives the list without it, order kept |
| BuddyTiers.LinkFront | crates/lohalloc-alloc/src/buddy.rs:850-873 | Pushing a slot on one order of a region's shared link arrays changes that order's list at the head and leaves the lists of all other orders as they were |
| BuddyTiers.LinkBack | crates/lohalloc-alloc/src/buddy.rs:880-903 | The same at the tail |
| BuddyTiers.LinkCut | crates/lohalloc-alloc/src/buddy.rs:908-939 | Removing a slot takes it out of its own list wherever it stands and leaves the other orders' lists alone |
| BuddyAllocator.OrderFor | crates/lohalloc-alloc/src/buddy.rs:1287-1302 | The smallest order whose blocks hold the size; none for zero and above 1 MiB |
| BuddyAllocator.BuddyHeap.constructor | crates/lohalloc-alloc/src/buddy.rs:417-430 | A new allocator is valid, with no region and nothing live |
| BuddyAllocator.BuddyHeap.PartitionPoint | crates/lohalloc-alloc/src/buddy.rs:1127-1141 | The first position of the sorted regions whose base is not below the address |
| BuddyAllocator.BuddyHeap.RegionIndexOf | crates/lohalloc-alloc/src/buddy.rs:1127-1141 | The cached lookup answers exactly as a scan of all regions would, whatever the cached index |
| BuddyAllocator.BuddyHeap.SetFreeBit | crates/lohalloc-alloc/src/buddy.rs:287-290 | Sets the block's bit and no other: the bitmap then spells the old free set with the block |
| BuddyAllocator.BuddyHeap.ClearFreeBit | crates/lohalloc-alloc/src/buddy.rs:293-296 | Clears the block's bit and no other |
| BuddyAllocator.BuddyHeap.IsFreeBit | crates/lohalloc-alloc/src/buddy.rs:302-305 | The bit is set exactly when the block is free |
| BuddyAllocator.BuddyHeap.PushList | crates/lohalloc-alloc/src/buddy.rs:805-816 | The block becomes the head of its order's intrusive list, no other list changing; every tier stays well formed |
| BuddyAllocator.BuddyHeap.Unlink | crates/lohalloc-alloc/src/buddy.rs:822-835 | Takes a listed node out of its intrusive list by its own links |
| BuddyAllocator.BuddyHeap.RegionListLink | crates/lohalloc-alloc/src/buddy.rs:995-1010 | Links a region at the head of an order's region chain |
| BuddyAllocator.BuddyHeap.RegionListUnlink | crates/lohalloc-alloc/src/buddy.rs:1014-1034 | Unlinks a region from anywhere in an order's chain |
| BuddyAllocator.BuddyHeap.OobPush | crates/lohalloc-alloc/src/buddy.rs:850-873 | The block becomes the head of its region's list for the order, no other of the lists changing, and the region is chained on the empty to nonempty edge; all seven orders and their chains stay well formed |
| BuddyAllocator.BuddyHeap.OobPushTail | crates/lohalloc-alloc/src/buddy.rs:880-903 | The same at the tail, for a block a drain could not merge |
| BuddyAllocator.BuddyHeap.OobRemove | crates/lohalloc-alloc/src/buddy.rs:908-939 | The block leaves its slot list, the order of the rest kept and no other list changing; its region is unchained when the list becomes empty |
| BuddyAllocator.BuddyHeap.OobPop | crates/lohalloc-alloc/src/buddy.rs:944-960 | Pops the front slot of the front region; none exactly when the order has no block |
| BuddyAllocator.BuddyHeap.StashFree | crates/lohalloc-alloc/src/buddy.rs:677-693 | Marks an in-hand block free and puts it in exactly one tier: the top of its cache row while there is room, else the head of its intrusive list; out of band, the head of its slot list |
| BuddyAllocator.BuddyHeap.PushTier | crates/lohalloc-alloc/src/buddy.rs:677-693 | The tier is chosen by order, then by room in the cache row, and keeps every other tier as it was |
| BuddyAllocator.BuddyHeap.RemoveFree | crates/lohalloc-alloc/src/buddy.rs:703-720 | Takes any free block out of whichever tier holds it; the tier it unlinks from always really holds it, and no other cache row entry goes |
| BuddyAllocator.BuddyHeap.Absorb | crates/lohalloc-alloc/src/buddy.rs:740-749 | A free buddy leaves its tier and its bit is cleared; the two are replaced in hand by their parent, which was no block before |
| BuddyAllocator.BuddyHeap.MergeUp | crates/lohalloc-alloc/src/buddy.rs:735-752 | Absorbs free buddies until none is free or the top order is reached: the block and everything that left the free set or a cache row lie in the result, and everything still tiles |
| BuddyAllocator.BuddyHeap.MergeDrainRow | crates/lohalloc-alloc/src/buddy.rs:764-794 | Drains the top of a cache row. Every entry the row loses ends inside a free block that cannot merge further, none comes back, every block free before lies in one free after, and what was settled stays settled |
| BuddyAllocator.BuddyHeap.OobDrain | crates/lohalloc-alloc/src/buddy.rs:972-991 | Examines exactly the given number of blocks unless the order runs empty first, at most MAX_ORDER minus the order merge steps each. Every block examined ends inside a free block that cannot merge further, and every block free before lies in one free after |
| BuddyAllocator.BuddyHeap.DrainRowTop | crates/lohalloc-alloc/src/buddy.rs:764-794 | The same for one entry, the top; the row shrinks |
| BuddyAllocator.BuddyHeap.MergePopped | crates/lohalloc-alloc/src/buddy.rs:972-991 | A popped block ends inside a free block that cannot merge any further, nothing settled is unsettled; unmerged it goes to the tail of its slot list |
| BuddyAllocator.BuddyHeap.Refill | crates/lohalloc-alloc/src/buddy.rs:1075-1121 | Maps one fresh region, inserted in sorted position, its four top blocks free; nothing changes when the kernel refuses |
| BuddyAllocator.BuddyHeap.FindOrder | crates/lohalloc-alloc/src/buddy.rs:552-561 | The smallest order from the requested one up with a block in any tier |
| BuddyAllocator.BuddyHeap.PopAt | crates/lohalloc-alloc/src/buddy.rs:580-591 | Pops the newest cached block, else the head of the intrusive list; out of band the front slot of the front region |
| BuddyAllocator.BuddyHeap.FindOrRefill | crates/lohalloc-alloc/src/buddy.rs:547-578 | At most one region is mapped, only when no free block is large enough, and after that the search succeeds |
| BuddyAllocator.BuddyHeap.SplitDown | crates/lohalloc-alloc/src/buddy.rs:598-604 | Splits an in-hand block down to the requested order, the upper halves becoming free |
| BuddyAllocator.BuddyHeap.AllocOrder | crates/lohalloc-alloc/src/buddy.rs:541-622 | Fails only if nothing fits and the one refill it tries is refused; otherwise the block comes from the smallest order in stock, the exact upper halves of the split become free, at most one region is mapped, the block is the next of its order's tiers, and it joins the live ones |
| BuddyAllocator.BuddyHeap.FreeOrder | crates/lohalloc-alloc/src/buddy.rs:636-673 | The block leaves the live ones and everything stays valid. Off the drain points the free set gains exactly that block. On a full row half of it is drained first: each entry lost ends inside a free block that cannot merge further, every block free before lies in one free after. Every 32nd free of an out-of-band order examines 16 blocks unless the order runs empty |
| BuddyAllocator.BuddyHeap.Reuse | crates/lohalloc-alloc/src/buddy.rs:624-673 | Below the out-of-band orders a block just freed is the very next one served at its order, with no region mapped, and no free block changed unless the row was full |
| BuddyAllocator.BuddyHeap.Alloc | crates/lohalloc-alloc/src/buddy.rs:458-469 | Serves a block of the least order that holds the size, not live before |
| BuddyAllocator.BuddyHeap.Dealloc | crates/lohalloc-alloc/src/buddy.rs:476-485 | Frees the live block at the address, its order recomputed from the size |
| BuddyAllocator.BuddyHeap.AllocOrderBatch | crates/lohalloc-alloc/src/buddy.rs:498-516 | Distinct, previously not live blocks, fewer than asked only when nothing of the order is left |
| BuddyAllocator.BuddyHeap.DeallocOrderBatch | crates/lohalloc-alloc/src/buddy.rs:528-533 | Exactly the named blocks leave the live ones |
| BuddyAllocator.BuddyHeap.SetRecordOrders | crates/lohalloc-alloc/src/buddy.rs:436-442 | Turned on before any region exists, every live block of order 10 or more has its order recorded from then on |
| BuddyAllocator.BuddyHeap.HeaderlessOrder | crates/lohalloc-alloc/src/lib.rs:3265-3286 | From the address alone, the order every live recorded block was allocated with |
| BuddyAllocator.BuddyHeap.OneTier | crates/lohalloc-alloc/src/buddy.rs:1164-1264 | A block's bit is set exactly when the block occurs once in one tier, and clear exactly when it occurs in none; a listed slot is on the list of one order only |
| BuddyAllocator.BuddyHeap.Conservation | crates/lohalloc-alloc/src/buddy.rs:1164-1264 | Free bytes plus live bytes are exactly the mapped regions times 4 MiB, after any sequence of operations |
| BuddyAllocator.BuddyHeap.DrainBudget | crates/lohalloc-alloc/src/buddy.rs:369-381 | Over the whole life of the allocator, drains of an order examined at most 16 blocks per 32 frees of it, with at most MAX_ORDER minus the order merge steps each |
| BuddyAllocator.BudgetStep | crates/lohalloc-alloc/src/buddy.rs:644-658 | The drain budget survives a free, with or without a drain: 16 blocks examined per 32 frees of the order, whatever the standing free mass |
| ArenaSafety.StepInv | crates/lohalloc-alloc/src/lib.rs:2934-3132 | Every atomic step of any thread keeps the whole invariant: counters, windows, mutex, scan state |
| ArenaSafety.ReachableInv | crates/lohalloc-alloc/src/arena.rs:111-152 | The invariant holds in every state any interleaving reaches |
| ArenaSafety.NoLiveOverlap | crates/lohalloc-alloc/src/arena.rs:132-146 | In every reachable state live blocks are aligned as asked, inside the carved part of a mapped chunk, and no two overlap |
| ArenaSafety.ReachableApart | crates/lohalloc-alloc/src/arena.rs:208-228 | Mapped chunks are disjoint ranges in every reachable state |
| ArenaSafety.RecycleIsSafe | crates/lohalloc-alloc/src/arena.rs:437-481 | Whatever step lowers a cursor finds that chunk without live block, open span or thread that could still carve from it |
| ArenaSafety.RewindIsSafe | crates/lohalloc-alloc/src/arena.rs:437-481 | A scan that decides to rewind has seen a chunk that is in fact quiet and empty, although its read of the freed count may be stale |
| ArenaSafety.NoPinsQuiet | crates/lohalloc-alloc/src/arena.rs:132-146 | A chunk without pins has no open span and no carve in flight past its pin |
| ArenaSafety.QuietAndFreed | crates/lohalloc-alloc/src/arena.rs:437-481 | When no thread is engaged with a chunk and a possibly stale freed count equals the carved count, no block of the chunk is live |
| ArenaSafety.QuietKept | crates/lohalloc-alloc/src/lib.rs:3013-3060 | Under a set intent a quiet chunk stays quiet through every lock-free step, its carved count fixed |
| ArenaSafety.LiveUntilFreed | crates/lohalloc-alloc/src/lib.rs:3073-3099 | A live block stays live through every step but its own free |
| ArenaSafety.CountersAgree | crates/lohalloc-alloc/src/arena.rs:111-152 | Carved plus counts in open spans is what was handed out, freed plus pending batches is what came back; with no pins freed never exceeds carved, and equals it exactly when nothing is live or on its way |
| ArenaWindows.FrontFits | crates/lohalloc-alloc/src/lib.rs:2955-2966 | What a span carve reserves always holds the request it was made for, aligned |
| ArenaCounts.KeepCounts | crates/lohalloc-alloc/src/lib.rs:2934-2997 | A step that moves counts between a thread and a chunk in balance keeps every chunk's books |
| SoloArena.BumpArena.constructor | crates/lohalloc-alloc/src/arena.rs:341-353 | One empty mapped chunk, nothing live |
| SoloArena.BumpArena.BumpDirect | crates/lohalloc-alloc/src/arena.rs:243-260 | Bumps a chunk exactly when the aligned request fits, counts the block as carved, and the block is clear of every live block of every chunk |
| SoloArena.BumpArena.TryRecycle | crates/lohalloc-alloc/src/arena.rs:437-481 | Rewinds a chunk only when it holds no live block; finds one unless every used chunk off the current is pinned, uncounted or unfreed |
| SoloArena.BumpArena.AllocDirect | crates/lohalloc-alloc/src/arena.rs:369-415 | Terminates, strands no empty chunk off the current, and moves no cursor but that of the chunk it settles on. A chunk-fitting request is refused exactly when no chunk from the current on has room, nothing before the last is recyclable, and no chunk can be mapped; with a willing kernel a refusal means exhaustion exactly when the request fits a chunk |
| SoloArena.RefusedBesideQuiet | crates/lohalloc-alloc/src/arena.rs:392-402 | From a new arena of two chunks: fill both, recycle and refill the first, free all of the second. The next request is refused and the arena latched, although the second chunk is wholly free |
| SoloArena.BumpArena.Advance | crates/lohalloc-alloc/src/arena.rs:392-412 | The next chunk of the chain, else a recycled one, else a fresh one; it stays put only at the end of the chain with nothing recyclable, at the cap or refused memory |
| SoloArena.BumpArena.Append | crates/lohalloc-alloc/src/arena.rs:403-408 | Chains a fresh chunk and moves to it |
| SoloArena.BumpArena.FlushBatch | crates/lohalloc-alloc/src/lib.rs:3108-3132 | Adds the pending frees to their chunk; clears the latch exactly when that leaves the chunk unpinned with nothing live |
| SoloArena.BumpArena.RetireSpan | crates/lohalloc-alloc/src/lib.rs:2967-2982 | Moves the window's block count into carved and releases the pin |
| SoloArena.BumpArena.ClearOwnBlockers | crates/lohalloc-alloc/src/lib.rs:3148-3179 | Afterwards the thread neither pins a chunk nor owes a free, and every chunk has its window and batch counts added |
| SoloArena.BumpArena.ServeSpan | crates/lohalloc-alloc/src/lib.rs:2934-2957 | Serves exactly when the aligned request fits the window; the block is clear of every live block |
| SoloArena.BumpArena.CarveSpan | crates/lohalloc-alloc/src/lib.rs:2955-3060 | Carves exactly when the reservation fits the published chunk; the fresh window lies past everything in it and its front serves the request |
| SoloArena.BumpArena.Alloc | crates/lohalloc-alloc/src/lib.rs:3510-3636 | Served blocks are aligned, in bounds and clear of every live block. Off the latch a chunk-fitting request is refused exactly when neither window serves it and the arena, this thread's own blockers cleared, has no room; then every chunk but the last has a live block, and with a willing kernel the cap is reached and the latch set |
| SoloArena.BumpArena.AllocSlow | crates/lohalloc-alloc/src/lib.rs:3558-3630 | The same past the windows: own blockers cleared, the arena asked, what is current published, exhaustion latched |
| SoloArena.BumpArena.Free | crates/lohalloc-alloc/src/lib.rs:3073-3099 | The latch is cleared by the free of the last live block of any chunk and by nothing else |
| SoloArena.BumpArena.FreeThenAlloc | crates/lohalloc-alloc/src/lib.rs:3073-3179 | Once exhausted, freeing the last live block of a chunk that is not the current one lets the next chunk-fitting request be served, even with no memory left in the kernel |
| Entries.Dedup | crates/lohalloc-alloc/src/perfect_hash.rs:296-309 | Of each run of equal hashes the last entry is kept |
| Entries.CanonicalMeaning | crates/lohalloc-alloc/src/perfect_hash.rs:279-313 | Sorting and deduplicating leaves strictly increasing hashes, each with its last entry |
| Entries.CanonicalUnique | crates/lohalloc-alloc/src/perfect_hash.rs:279-313 | The canonical form depends only on what each hash finally maps to |
| Chd.FastRange | crates/lohalloc-alloc/src/perfect_hash.rs:171-173 | The reduction lands below the range for every 64-bit word |
| Chd.LargestFirstMeaning | crates/lohalloc-alloc/src/perfect_hash.rs:357-360 | The bucket order names every bucket and never puts a smaller one first |
| Chd.PlacementBijective | crates/lohalloc-alloc/src/perfect_hash.rs:348-413 | When placement succeeds every hash sits at the slot its lookup computes and every slot holds a hash, for any mixing function |
| HashTable.PackLoop | crates/lohalloc-alloc/src/perfect_hash.rs:198-211 | The packing loop writes the seeds, then the entries, and nothing else |
| HashTable.SeedAt | crates/lohalloc-alloc/src/perfect_hash.rs:444-450 | The reader finds seed number b at byte 4b |
| HashTable.PackedAt | crates/lohalloc-alloc/src/perfect_hash.rs:198-211 | The reader finds the hash, the shared backend and flag byte and the size class of slot j at its computed offset, in bounds |
| HashTable.TryBuildLoop | crates/lohalloc-alloc/src/perfect_hash.rs:348-413 | The construction loops over mutable slots compute exactly the specified placement |
| HashTable.BuildLoop | crates/lohalloc-alloc/src/perfect_hash.rs:319-345 | All attempts in order; none stands for the final panic |
| HashTable.FromEntriesLoop | crates/lohalloc-alloc/src/perfect_hash.rs:279-313 | The whole construction refines its specification |
| HashTable.FindDisplacement | crates/lohalloc-alloc/src/perfect_hash.rs:385-407 | The first displacement that sends the bucket to distinct free slots |
| TableMeaning.LookupMeaning | crates/lohalloc-alloc/src/perfect_hash.rs:464-485 | A lookup on the packed bytes equals the last-wins map of the input: the entry's backend and its flags modulo 64 for a key, none for every other hash |
| TableMeaning.ListingMeaning | crates/lohalloc-alloc/src/perfect_hash.rs:520-534 | Listing a table gives its input sorted, deduplicated, flags masked to six bits |
| TableMeaning.RebuildSame | crates/lohalloc-alloc/src/perfect_hash.rs:845-852 | Rebuilding from a table's own listing gives the same table byte for byte, construction succeeding again |
| TableMeaning.OrderIndependent | crates/lohalloc-alloc/src/perfect_hash.rs:279-313 | The table does not depend on the order of the input |
| TableMeaning.SingleBuilds | crates/lohalloc-alloc/src/perfect_hash.rs:319-345 | Construction never fails on one entry |
| TableMeaning.PackedMeaning | crates/lohalloc-alloc/src/perfect_hash.rs:181-208 | Backend and low six flag bits survive sharing one byte; the two top flag bits do not |
| Routing.ComputeScVerdict | crates/lohalloc-alloc/src/perfect_hash.rs:627-665 | A class has a verdict exactly when some entry has it and every such entry is unflagged and routes to the class default |
| Routing.RouteMeaning | crates/lohalloc-alloc/src/perfect_hash.rs:687-709 | Routing over the packed table equals routing over the entries: a flagged key defers to its fine sibling under the current history if one was given |
| Routing.ShortcutAgrees | crates/lohalloc-alloc/src/perfect_hash.rs:687-709 | A class with a verdict routes every key stored at that class, in either table and under every history context, to the verdict |
| Routing.UnknownKeyAgrees | crates/lohalloc-alloc/src/lib.rs:2495-2506 | For a key in no table the full path agrees with the class default exactly when the 48 header bytes do not move the size over a default boundary |
| Routing.StraddleWitness | crates/lohalloc-alloc/src/state.rs:824-828 | At 16384 bytes the two differ: Slab by class, Buddy with the header |
| Routing.StraddleServesSame | crates/lohalloc-alloc/src/lib.rs:3659-3717 | Where they differ the same backend serves in the end, whichever backends are able to |
| ModelFile.SerializeLoop | crates/lohalloc-alloc/src/perfect_hash.rs:724-753 | The writer produces the specified bytes: header, both sections sorted, checksum |
| ModelFile.DecodeLoop | crates/lohalloc-alloc/src/perfect_hash.rs:760-838 | The reader decides exactly as specified and reads in bounds on every byte string |
| ModelFile.AcceptedIff | crates/lohalloc-alloc/src/perfect_hash.rs:760-838 | Accepted exactly when magic, version, length, every record's backend and flags, and the checksum are right; bytes after the file are ignored |
| ModelFile.DecodeOfEncode | crates/lohalloc-alloc/src/perfect_hash.rs:724-838 | What is encoded decodes, with any bytes after it |
| ModelFile.EncodeOfDecode | crates/lohalloc-alloc/src/perfect_hash.rs:724-838 | Encoding what was decoded gives the file back, up to bytes after it, exactly when every record's reserved byte is zero, which the reader does not check |
| ModelFile.RoundTrip | crates/lohalloc-alloc/src/perfect_hash.rs:724-838 | Loading what was saved gives back the very same plane: both tables byte for byte, every verdict, the history gate (counts below 2^32) |
| ModelFile.LoadedStable | crates/lohalloc-alloc/src/perfect_hash.rs:760-838 | Whatever loads saves and loads again to itself |
| ModelFile.FileOrderIndependent | crates/lohalloc-alloc/src/perfect_hash.rs:724-753 | The file does not depend on the order of the input |
| Bytes.FromLeOfLe | crates/lohalloc-alloc/src/perfect_hash.rs:724-745 | Little-endian encoding of a value that fits reads back |
| Magazines.IndexFor | crates/lohalloc-alloc/src/buddy_mag.rs:67-73 | Exactly orders 10 to 14 have a row |
| Magazines.RefillFits | crates/lohalloc-alloc/src/buddy_mag.rs:78-80 | A refill fits an empty row and a flush with its trigger fits the 33-slot buffer |
| Magazines.Magazine.EnsureOwner | crates/lohalloc-alloc/src/buddy_mag.rs:115-123 | A new owner sees empty rows; the present owner loses nothing |
| Magazines.Magazine.Pop | crates/lohalloc-alloc/src/buddy_mag.rs:129-141 | The newest block of the row; none exactly when this owner's row is empty; other rows unchanged |
| Magazines.Magazine.Push | crates/lohalloc-alloc/src/buddy_mag.rs:147-160 | Stores exactly when the row is below its cap; other rows unchanged |
| Magazines.Magazine.Take | crates/lohalloc-alloc/src/buddy_mag.rs:166-178 | Hands out the newest blocks, newest first, and keeps the rest in order |
| Lanes.PinnedIsFresh | crates/lohalloc-alloc/src/lib.rs:1617-1632 | A pinned verdict under a table tag is what a fresh distilled lookup in that table says, and a negative one says there is none |
| Lanes.StoreKeepsPins | crates/lohalloc-alloc/src/lib.rs:1651-1674 | Storing a fresh verdict keeps every verdict of the cache true, also when it evicts another site or table |
| Lanes.StoreThenProbe | crates/lohalloc-alloc/src/lib.rs:1617-1674 | What was stored is what the next probe answers; no other class of the site and no site of another slot changes, and a site evicted from the slot misses |
| Lanes.PublishKeepsPins | crates/lohalloc-alloc/src/lib.rs:3996-4033 | Publishing another plane needs no flush: every verdict stays true |
| Lanes.EmptyPinsOk | crates/lohalloc-alloc/src/hot.rs:216-222 | The initial cache claims nothing |
| Lanes.ShortcutAgreesWithPin | crates/lohalloc-alloc/src/lib.rs:2323-2355 | Where both a class verdict and a pinned verdict exist they name the same backend exactly when the pinned one is the class default, and always when the entry found is of the class |
| Lanes.DistilledCarryClass | crates/lohalloc-alloc/src/bandit.rs:776-783 | Under a key no trained site has for another class only entries of the class are found |
| Lanes.AllocLaneRefines | crates/lohalloc-alloc/src/lib.rs:2194-2243 | When the allocation lane serves, the classic path from the same state serves the same block and leaves the same rows, history and pins, whatever the tables and keys |
| Lanes.LaneGuardExact | crates/lohalloc-alloc/src/lib.rs:1799-1810 | The size and alignment guard in front of the lane is exact: beyond it the classic path never serves from the magazine |
| Lanes.FreeLaneRefines | crates/lohalloc-alloc/src/lib.rs:2266-2286 | When the free lane stores a block, the classic path stores it in the same row and leaves the same segment cached |
| Lanes.SegmentKept | crates/lohalloc-alloc/src/lib.rs:2292-2302 | The segment cache only ever holds registered segments with their class |
| Lanes.SegmentSurvives | crates/lohalloc-alloc/src/lib.rs:2292-2302 | A fresh owner id or newly registered segments leave the cache true |
| HotBlock.HotTls.constructor | crates/lohalloc-alloc/src/hot.rs:194-224 | The initial hot block |
| HotBlock.HotTls.ProbePin | crates/lohalloc-alloc/src/lib.rs:1617-1632 | While the cache is honest, a pinned answer under any published table is that table's fresh distilled verdict for the site and class, and a negative one means there is none |
| HotBlock.HotTls.StorePin | crates/lohalloc-alloc/src/lib.rs:1651-1674 | Storing in the cells changes exactly the claimed slot |
| HotBlock.HotTls.SlabFastAlloc | crates/lohalloc-alloc/src/lib.rs:2194-2243 | On the cells the lane serves exactly when its specification does and otherwise touches nothing |
| HotBlock.HotTls.SlabFastDealloc | crates/lohalloc-alloc/src/lib.rs:2266-2286 | The same for the free lane |
| HotBlock.HotTls.SlabDealloc | crates/lohalloc-alloc/src/lib.rs:2793-2800 | The classic headerless free up to a full row |
| MagazineProtocol.OnePlace | crates/lohalloc-alloc/src/lib.rs:3305-3413 | In every run of any number of threads and stripes a block is with the users, in one magazine or in one hand, once in all, exactly when the stripe that mapped its region calls it live |
| MagazineProtocol.StepInv | crates/lohalloc-alloc/src/lib.rs:3305-3413 | Every hit, refill, spread, flush visit and direct visit keeps the ledger balanced |
| MagazineProtocol.FlushLegal | crates/lohalloc-alloc/src/lib.rs:3387-3412 | What a flush hands any stripe still to be visited is its own: blocks live there, each named once |
| MagazineProtocol.FlushRun | crates/lohalloc-alloc/src/lib.rs:3387-3412 | A flush leads from any allowed state to one where every stripe has lost its group, the row kept its older half and the block is gone from the users |
| MagazineProtocol.GroupsPartition | crates/lohalloc-alloc/src/lib.rs:3396-3412 | Every flushed block is in the group of its owning stripe as often as it was flushed, and in no other group |
| MagazineProtocol.HeldApart | crates/lohalloc-alloc/src/lib.rs:3305-3413 | Two different blocks held anywhere by anyone never overlap |
| MagazineProtocol.HeldOnce | crates/lohalloc-alloc/src/lib.rs:3305-3413 | The ledger pins every block to at most one place |
| BuddyMagazines.VisitRefill | crates/lohalloc-alloc/src/lib.rs:3327-3332 | A refill visit on the real allocator is an allocation step of the protocol |
| BuddyMagazines.VisitFlush | crates/lohalloc-alloc/src/lib.rs:3407-3411 | A flush visit on the real allocator is a free step of the protocol |
| BuddyMagazines.AllocViaMagazine | crates/lohalloc-alloc/src/lib.rs:3305-3342 | The newest cached block, or a batch whose first block is returned and whose rest fills the row; a refused refill changes nothing |
| BuddyMagazines.GroupLoop | crates/lohalloc-alloc/src/lib.rs:3398-3406 | The grouping pass collects exactly the stripe's blocks, in order |
| BuddyMagazines.ReturnGroups | crates/lohalloc-alloc/src/lib.rs:3396-3412 | Each stripe takes the free step of exactly its own group |
| BuddyMagazines.TakeHalf | crates/lohalloc-alloc/src/lib.rs:3377-3386 | Half a full row, newest first, and the block that found it full; the rest of the row stays in order |
| BuddyMagazines.FreeViaMagazine | crates/lohalloc-alloc/src/lib.rs:3353-3413 | A push below the cap; at the cap half the row and the trigger go back, each to its own stripe |
| BuddyMagazines.FreeInProtocol | crates/lohalloc-alloc/src/lib.rs:3353-3413 | From any state the protocol invariant allows, a free is a run of the protocol: a push, or a take, a visit to each stripe and an end. Every group is legal in its stripe because of the invariant, and the block leaves the users |
| BuddyMagazines.AllocInProtocol | crates/lohalloc-alloc/src/lib.rs:3305-3342 | From any such state an allocation is a run of the protocol: a pop, or a refill and a spread, or nothing when memory is refused. The block reaches the users and was not with them before |
| BuddyMagazines.HeaderlessLookup | crates/lohalloc-alloc/src/lib.rs:3265-3286 | From the address alone, the stripe and the order the block was allocated with |
| Bandit.StepExact | crates/lohalloc-alloc/src/bandit.rs:134-139 | One running update turns the exact mean and squared deviation of n values into those of n+1 |
| Bandit.ArmStats.constructor | crates/lohalloc-alloc/src/bandit.rs:113-121 | The baseline prior is one pull and no observation |
| Bandit.ArmStats.Observe | crates/lohalloc-alloc/src/bandit.rs:134-139 | The accumulators stay the exact mean and squared deviation of everything observed |
| Bandit.ArmStats.UpdateWeighted | crates/lohalloc-alloc/src/bandit.rs:418-431 | Credits the batch mean once per pull and observes it once |
| Bandit.ArmStats.RewardVariance | crates/lohalloc-alloc/src/bandit.rs:143-148 | The exact population variance of all observed batch means |
| Bandit.VariesIff | crates/lohalloc-alloc/src/bandit.rs:680-687 | The variance gate passes exactly when the population variance of what the frozen verdict's arm observed reaches the threshold |
| Bandit.BestIsLastMax | crates/lohalloc-alloc/src/bandit.rs:811-823 | The best arm has the greatest mean, the last one on ties |
| Bandit.BestLoop | crates/lohalloc-alloc/src/bandit.rs:811-823 | The scan computes it |
| Bandit.OverrideIff | crates/lohalloc-alloc/src/bandit.rs:718-737 | An override is made exactly for the context's best arm when it disagrees with the coarse verdict, wins by the margin, and both arms were observed enough |
| Bandit.ShallowIff | crates/lohalloc-alloc/src/bandit.rs:599-620 | The shallow overrides are exactly the justified context rows of frozen parents |
| Bandit.DeepIff | crates/lohalloc-alloc/src/bandit.rs:661-707 | The deep overrides are exactly the rows with a deep reason: unexplained, varying, mixed-size parent, real traffic share, margin beyond every shallow context |
| Bandit.OneDepth | crates/lohalloc-alloc/src/bandit.rs:585-711 | No coarse key is flagged at both depths |
| Bandit.Monotone | crates/lohalloc-alloc/src/bandit.rs:585-711 | A higher threshold only drops deep overrides and leaves the shallow ones; zero turns the deep pass off |
| Bandit.ShallowPass | crates/lohalloc-alloc/src/bandit.rs:599-620 | The first loop collects the shallow overrides, their parents and the one-frame groups of the overridden signatures |
| Bandit.SizesPerSite | crates/lohalloc-alloc/src/bandit.rs:629-635 | Which size classes each call site was seen at |
| Bandit.BestShallowMargins | crates/lohalloc-alloc/src/bandit.rs:642-660 | Per signature the best margin any comparable shallow context showed |
| Bandit.DeepRow | crates/lohalloc-alloc/src/bandit.rs:661-707 | One row of the second loop: its gates in order decide the row's deep entry |
| Bandit.DeepPass | crates/lohalloc-alloc/src/bandit.rs:661-711 | The second loop collects the deep overrides, their parents and groups |
| Bandit.FreezeFineLoop | crates/lohalloc-alloc/src/bandit.rs:585-711 | Both passes together |
| Bandit.Distill | crates/lohalloc-alloc/src/bandit.rs:754-785 | An entry exactly for each known leaf site and size class whose signatures all have the same best arm, carrying that arm and the summed volume, saturated |
| Freeze.ClampServable | crates/lohalloc-alloc/src/state.rs:882-903 | A clamped verdict can serve its class, is idempotent, and is the verdict itself or the class default |
| Freeze.DemotionIff | crates/lohalloc-alloc/src/state.rs:882-903 | Demotion changes exactly the servable Arena verdicts, into the class default |
| Freeze.KeepLoop | crates/lohalloc-alloc/src/state.rs:633-664 | The overrides that survive clamping under their parent's demotion, and their parents |
| Freeze.ListGroups | crates/lohalloc-alloc/src/bandit.rs:776-785 | Every unanimous group of a known leaf site, once each |
| Freeze.FreezeLoop | crates/lohalloc-alloc/src/state.rs:560-720 | The freeze builds exactly the specified entries of both tables |
| Freeze.DemotesAtLeast | crates/lohalloc-alloc/src/state.rs:585-610 | Whenever a signature is heavy enough to be demoted in the main table, its site is in the distilled one, although the shares are taken of different totals and the group volume saturates |
| Freeze.FlagIff | crates/lohalloc-alloc/src/state.rs:667-679 | A main entry carries a context flag exactly when an override of it survives at that depth, and never both flags |
| Freeze.FlaggedHasSibling | crates/lohalloc-alloc/src/state.rs:626-680 | A flagged entry has a sibling in the main table under some history, with another verdict than its own |
| Freeze.FrozenServable | crates/lohalloc-alloc/src/state.rs:560-720 | No entry of either table names a backend that cannot serve its size class |
| Freeze.PinNeverContext | crates/lohalloc-alloc/src/state.rs:683-714 | A site with a context-routed signature whose key no other signature has is never in the distilled table |
| Freeze.DistilledFound | crates/lohalloc-alloc/src/state.rs:709-715 | What is found distilled under a site is the clamped best arm of every signature of the site |
| Freeze.TablesAgreeIff | crates/lohalloc-alloc/src/state.rs:585-715 | The two tables give a distilled signature the same verdict except exactly where the distilled one alone demotes Arena |
| Freeze.PinServesRoute | crates/lohalloc-alloc/src/bandit.rs:739-753 | End to end: a pinned verdict is the clamped best arm of every signature of the site and is what the full route of each answers under every history, except exactly where the distilled table alone demoted Arena to the class default |
| Freeze.DemotedAloneWitness | crates/lohalloc-alloc/src/state.rs:585-610 | Two signatures as training leaves them for which the pinned verdict is Slab and the main one Arena |
| Freeze.FrozenCarriesClass | crates/lohalloc-alloc/src/state.rs:709-715 | Frozen distilled entries are found under their own class when no trained site has the key under another class |

## Left out

- Foreign memory: `mmap`, page size, alignment trimming, the System retention cache and `munmap` are answers given to the model.
- Headers: reading and writing `Header`, unaligned access and the magic check. Header-carrying slab blocks are outside the lane model.
- Slab central tiers, the segment registry's own table, the striped refill scan and its epoch gate: a lane miss is `Elsewhere`.
- `reset_arena`, the span epoch and reset statistics: every arena result is for runs without a reset.
- Weak memory beyond stale reads of `freed`, arbitrary cursor loads and failing compare-exchanges.
- Spans and batches of another instance: one instance only; a thread that stops simply takes no further step, its magazine staying held.
- Registration failure of a chunk or region: the tables are taken to have room.
- Recycling statistics, telemetry, latency timing, UCB scores and convergence: measured time or `ln` and `sqrt`.
- Freezing an already frozen state, which panics; snapshots for the live view.
- Counter overflow of `u32` pulls and `usize` block counts.
- Bitmap words: bits are a sequence of booleans per region, not packed into 64-bit words.
- BuddyAllocator.BuddyHeap.DrainRowTop: rows below order 10 only, because rows of the out-of-band orders are always empty; draining one does nothing, so the branch that would push its unmerged blocks out of band is never taken.
- BuddyAllocator.BuddyHeap.HeaderlessOrder: says nothing of a foreign pointer, whose slot may hold any recorded order.
- BuddyAllocator.BuddyHeap.Dealloc: asks, as the code's own safety contract does, for a size that rounds to the block's order; otherwise the code leaks or asserts.
- SoloArena.BumpArena.Alloc: one thread, so the published descriptor is never stale; staleness is in the protocol.
- ModelFile.RoundTrip: entry counts below 2^32, because the file stores 32-bit counts and the writer truncates.
- Freeze.PinServesRoute: takes as given that no other trained key collides with this signature's or with its site's, which 64-bit hashes cannot guarantee; other keys may collide.
- Freeze.PinNeverContext: takes as given that no other trained signature shares this one's coarse key.
- Freeze.DistilledFound: takes as given that no other distilled group shares this site's key.
- Freeze.FrozenCarriesClass: takes as given that no trained site has this key under another class.
- Lanes.DistilledCarryClass: takes as given that no trained site has this key under another class.
- MagazineProtocol.OnePlace: magazines of orders 10 to 14; other orders go directly between users and stripes.
- Bandit.Distill: returns the entries by site and class; `Freeze.ListGroups` writes them out in some order, not the key order, which no result depends on.
