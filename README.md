# ash_allocator in Dafny

A model of the bookkeeping core of `ash_allocator`, a layered Vulkan memory
allocator, with proofs about it. The allocator is built from small pieces that
share one interface (`ComposableAllocator`).

- `PageArena` is a first-fit allocator over a vector of equal-size pages.
  Every allocated page remembers the first page of its chunk, so a chunk can
  be freed from any of its pages.
- `PageSuballocator` turns one parent allocation into pages. It converts byte
  requests into page counts with `div_ceil`. It aligns a result by asking for
  `alignment - 1` bytes of slack and moving the result up to the next
  multiple of the alignment.
- An older bitmap version of the same first-fit search, `set_region` and
  `linear_probe`, is modelled as well.
- `MemoryTypePoolAllocator` keeps a map from chunk id to the
  `PageSuballocator` that splits that chunk. It tries the existing chunks
  first and asks its backend for a new chunk only when none fits. A chunk
  goes back to the backend as soon as it is empty.
- `PoolAllocator` routes by memory type.
- `SizedAllocator` routes by aligned size.
- `DedicatedAllocator` routes by the dedicated-allocation flags.
- `TraceAllocator` counts allocations and frees, in total and per memory
  type.
- `FakeAllocator` is a recording bump-offset backend, and `NullAllocator` a
  trivial one.
- `DeviceMemory` reference-counts host mappings shared by all clones of a
  memory handle.
- `AllocationRequirements::for_buffer` selects the memory type: the least
  index whose bit is set in `memoryTypeBits` and whose property flags
  contain the requested ones. This is the rule of section "Device Memory
  Properties" (chapter "Memory Allocation") of the Vulkan 1.3
  specification. `DedicatedResourceHandle` maps to its
  `VkMemoryDedicatedAllocateInfo`.

## How the source's forms are kept

- Code that changes state step by step becomes a Dafny `class` whose methods
  change their fields, each method proved against its contract. This covers
  the page arena, the suballocator, the pools, the routers, the fake backend,
  the trace counters and `DeviceMemory`.
- The loops of `find_first_free_chunk`, `allocate_chunk`, `free_chunk`,
  `set_region` and `linear_probe` are `while`/`for` loops with their
  invariants.
- `set_region` writes into an `array<bool>`.
- Pure code becomes functions. This covers `div_ceil`, the alignment
  correction, memory-type selection, the dedicated-handle mapping,
  `NullAllocator::allocate` and the map/unmap transitions of `DeviceMemory`.
- Vulkan handles and pointers are naturals, with 0 for the null handle and
  the null pointer. Flag sets are `bv32`. `anyhow` errors become a typed
  `AllocatorError`.
- The routers work over `FakeAllocator` backends. Theirs is the backend the
  repository's own tests use.
- The memory-type pools are `MemoryTypePoolAllocator`s. The pools of one
  `PoolAllocator` share their backend, as the `Arc<Mutex<..>>` in the source
  does.
- `src/allocation_requirements.rs` is an older copy of
  `src/allocation_requirements/mod.rs` and
  `src/allocation_requirements/dedicated_resource_handle.rs`. The same
  functions model both, and the table names the older lines beside the newer.
- The module `Scenarios` replays the concrete scenarios of the repository's
  tests. Each scenario states the outcome the test asserts: byte offsets,
  failures, backend requests and emptiness.

## Model

| member | source | states |
|---|---|---|
| Requirements.DefaultHandle | src/allocation_requirements/dedicated_resource_handle.rs:33-37 | the default handle names no resource, and its allocate info has both handles null (also `src/allocation_requirements.rs:36-40`) |
| Requirements.AsDedicatedAllocationInfo | src/allocation_requirements/dedicated_resource_handle.rs:15-30 | a buffer handle sets only the buffer field; an image handle sets only the image field; no resource leaves both null (also `src/allocation_requirements.rs:18-33`) |
| Requirements.AllocateInfoDeterminesHandle | src/allocation_requirements/dedicated_resource_handle.rs:15-30 | for non-null handles the allocate info determines the handle: buffer and image handles never give the same info |
| Requirements.FindFrom | src/allocation_requirements/mod.rs:63-79 | the search from position `from` returns the first suitable index at or after `from` (bit set, properties contained), or `None` when no index from there on is suitable |
| Requirements.FindMemoryTypeIndex | src/allocation_requirements/mod.rs:63-79 | the result is suitable and no smaller index is; `None` exactly when no index is suitable (also `src/allocation_requirements.rs:95-111`) |
| Requirements.ForBuffer | src/allocation_requirements/mod.rs:63-106 | an error exactly when no memory type is suitable, and then the error is `NoSupportedTypeForProperties(bits, flags)`; on success: the least suitable index; size, alignment and bits from the query; the requested properties; each dedicated flag true iff the queried value is `VK_TRUE`; handle `Buffer(buffer)` (also `src/allocation_requirements.rs:95-138`) |
| Allocations.Suballocate | src/memory_allocator/page_suballocator/mod.rs:110-114 | a suballocation keeps the parent's memory and memory type, sits at the parent's offset plus the relative offset, has the given size, and names the top-level chunk as its parent |
| Backends.OffsetsGrow | src/memory_allocator/fake_allocator.rs:34-42 | offsets of the recorded requests never decrease along the sequence |
| Backends.RegionsAreDisjoint | src/memory_allocator/fake_allocator.rs:34-42 | each recorded region ends where the next begins, so any two regions are disjoint |
| Backends.OffsetsSurviveAppend | src/memory_allocator/fake_allocator.rs:34-44 | recording one more request leaves every earlier offset as it was, and the new one starts at the total size before it |
| Backends.FakeAllocator.constructor | src/memory_allocator/fake_allocator.rs:11-23 | a fresh fake backend has no records, counts and offset 0 |
| Backends.FakeAllocator.NextAllocation | src/memory_allocator/fake_allocator.rs:34-42 | the next allocation has null memory, no parent, the request's size, memory type and requirements, the allocation count as id, and starts after all earlier requests |
| Backends.FakeAllocator.Allocate | src/memory_allocator/fake_allocator.rs:26-45 | it never fails; it records the request, counts one more live and one more total allocation, and advances the offset by the size |
| Backends.FakeAllocator.Free | src/memory_allocator/fake_allocator.rs:47-49 | only the live count drops by one |
| Backends.NullAllocator.Allocate | src/memory_allocator/null_allocator.rs:17-27 | it always succeeds, with null memory at offset 0, no parent, and the request's size and memory type |
| PageArenas.StartCountIsCardinality | src/memory_allocator/page_suballocator/page_arena.rs:71-74 | counting chunk starts page by page gives the size of the set of starts below `n` |
| PageArenas.ChunkCountIsStartCount | src/memory_allocator/page_suballocator/page_arena.rs:100-104 | the arena's allocation count, as its invariant states it, is the number of live chunks |
| PageArenas.PageArena.constructor | src/memory_allocator/page_suballocator/page_arena.rs:39-44 | `new(n)` gives `n` free pages, count 0, an empty arena, and the invariant |
| PageArenas.PageArena.FindFirstFreeChunk | src/memory_allocator/page_suballocator/page_arena.rs:119-137 | for a count of at least 1: `Some(s)` with `s` the least start of a run of free pages that long, and `None` exactly when there is no such run; a count of 0 finds nothing |
| PageArenas.NoRunEndsAt | src/memory_allocator/page_suballocator/page_arena.rs:122-135 | once a page has been looked at without a hit, no run of the requested length ends at it |
| PageArenas.PageArena.AllocateChunk | src/memory_allocator/page_suballocator/page_arena.rs:61-77 | on success, exactly the first-fit run of pages becomes `Allocated(start)`, the count rises by one, and the chunk starts gain `start`; failure exactly when there is no such run, and then nothing changes; the invariant is kept |
| PageArenas.PageArena.FreeChunk | src/memory_allocator/page_suballocator/page_arena.rs:86-105 | freeing any page of a chunk (first, middle or last) frees exactly that chunk and lowers the count by one; a free page is left alone; the invariant is kept |
| PageArenas.EmptyIffNoChunks | src/memory_allocator/page_suballocator/page_arena.rs:46-49 | under the invariant `is_empty` holds exactly when no chunk is live |
| PageArenas.EmptyIffAllFree | src/memory_allocator/page_suballocator/page_arena.rs:46-49 | with contiguous chunks, no chunk starts exactly when every page is free |
| PageArenas.AddChunkKeepsShape | src/memory_allocator/page_suballocator/page_arena.rs:61-77 | turning a free run into a chunk keeps chunks contiguous and disjoint, and adds a start that was not there |
| PageArenas.ChunkEndsAt | src/memory_allocator/page_suballocator/page_arena.rs:96-103 | the pages the free loop walks over, from the chunk's first page while they belong to it, are all of the chunk |
| PageArenas.RemoveChunkKeepsShape | src/memory_allocator/page_suballocator/page_arena.rs:86-105 | freeing a whole chunk keeps chunks contiguous and removes exactly its start |
| PageArenas.FreeUndoesAllocate | src/memory_allocator/page_suballocator/page_arena.rs:61-105 | freeing a chunk just made from a free run gives back the pages as they were |
| PageArenas.SmokeTest | src/memory_allocator/page_suballocator/page_arena.rs:238-254 | `attempts` requests of `chunkPages` pages each, then freeing every start handed out, leave the arena empty |
| PageSuballocators.DivCeil | src/memory_allocator/page_suballocator/mod.rs:173-176 | `q * bottom >= top`, and `q - 1` pages would not cover `top` |
| PageSuballocators.DivCeilIsLeast | src/memory_allocator/page_suballocator/mod.rs:173-189 | no smaller page count covers `top` bytes |
| PageSuballocators.AlignmentCorrection | src/memory_allocator/page_suballocator/mod.rs:102-108 | the correction is below the alignment, makes the offset a multiple of it, and is 0 on an aligned offset |
| PageSuballocators.PageSuballocator.ForAllocation | src/memory_allocator/page_suballocator/mod.rs:30-44 | the size must be a multiple of the page size; the arena gets `size / page_size` free pages that tile the parent exactly; the result is empty |
| PageSuballocators.PageSuballocator.ReleaseAllocation | src/memory_allocator/page_suballocator/mod.rs:54-56 | it hands back the parent allocation, which the pages cover exactly |
| PageSuballocators.PageSuballocator.PagesFor | src/memory_allocator/page_suballocator/mod.rs:83-94 | the page count covers the size on the shortcut, and the size plus `alignment - 1` bytes of slack otherwise |
| PageSuballocators.PageSuballocator.AllocateUnaligned | src/memory_allocator/page_suballocator/mod.rs:132-147 | `div_ceil(size, page)` first-fit pages become a chunk, and the result is `size` bytes at the parent's offset plus `start * page`, inside the chunk and the parent; the error "no contiguous chunk" comes exactly when there is no such run or the size is 0, and then nothing changes |
| PageSuballocators.PageSuballocator.Allocate | src/memory_allocator/page_suballocator/mod.rs:78-115 | on the shortcut, the result is that of `allocate_unaligned(size)`; otherwise the padded first-fit chunk, with the result moved by the alignment correction: a multiple of the alignment, inside the padded chunk and the parent; the error comes exactly when there is no long enough run, and then nothing changes |
| PageSuballocators.PageSuballocator.Free | src/memory_allocator/page_suballocator/mod.rs:157-170 | an allocation of other memory is ignored; otherwise the chunk holding page `(offset - base) / page` is freed, and nothing if that page is free |
| PageSuballocators.ChunkBytesInside | src/memory_allocator/page_suballocator/mod.rs:132-147 | `size` bytes from the first page of a chunk stay inside the chunk, and the chunk inside the parent |
| PageSuballocators.PageOfOffsetInChunk | src/memory_allocator/page_suballocator/mod.rs:161-169 | an offset inside a chunk's bytes divides down to a page of that chunk |
| PageSuballocators.FreeFindsItsChunk | src/memory_allocator/page_suballocator/mod.rs:157-170 | the page `free` computes for a non-empty result of `allocate` is a page of the chunk that produced it, on both paths |
| PageSuballocators.NewResultMissesLiveChunk | src/memory_allocator/page_suballocator/mod.rs:78-147 | a result carved from a free run shares no byte with a result lying in a chunk that is live at that moment, so live results never overlap |
| PageSuballocators.ShortcutAlignedWhenBaseAndPageAligned | src/memory_allocator/page_suballocator/mod.rs:83-90 | the shortcut's result is aligned when the base offset and the page size are both multiples of the alignment |
| Bitmaps.SetRegion | src/memory_allocator/page_suballocator.rs:11-16 | the region must lie inside the bitmap; exactly bits `[start, start + size)` are set to the value and every other bit is kept |
| Bitmaps.EmptyRegionIsIdentity | src/memory_allocator/page_suballocator.rs:87-102 | setting a region of size 0 changes nothing |
| Bitmaps.LinearProbe | src/memory_allocator/page_suballocator.rs:30-49 | for a size of at least 1: the least start of that many clear bits, and `None` exactly when there is none; a size of 0 finds nothing |
| Bitmaps.ProbeAvoidsMarkedRegion | src/memory_allocator/page_suballocator.rs:11-49 | a clear run found after the region is marked used never overlaps that region |
| MemoryTypePools.ChunkRequirements | src/memory_allocator/memory_type_pool_allocator.rs:81-86 | a chunk request has the chunk size, alignment 1 and the pool's memory type, and every other field of the request |
| MemoryTypePools.MemoryTypePoolAllocator.constructor | src/memory_allocator/memory_type_pool_allocator.rs:29-46 | an empty, valid pool with the given memory type, chunk size, page size and backend |
| MemoryTypePools.MemoryTypePoolAllocator.AllocateFromChunk | src/memory_allocator/memory_type_pool_allocator.rs:69-77 | one chunk serves the request exactly when it has a long enough free run; then the least such run becomes a chunk of its arena, the arena counts one more allocation, and the result's bytes lie inside that run, in that chunk's allocation, with the requested size and type; otherwise nothing changes |
| MemoryTypePools.MemoryTypePoolAllocator.TryExistingChunks | src/memory_allocator/memory_type_pool_allocator.rs:69-77 | the existing chunks serve the request exactly when one of them fits; then the chunk the result names took its least fitting run, the result's bytes lie inside that run, and every other arena is kept, with the chunk left open as the `HashMap` order leaves it; if none fits, every arena is kept |
| MemoryTypePools.MemoryTypePoolAllocator.Allocate | src/memory_allocator/memory_type_pool_allocator.rs:52-110 | a wrong memory type gives "memory type index mismatch" and a request whose aligned size reaches the chunk size gives "chunk too small", both with no backend call; a fitting existing chunk serves the request with no backend call and the same chunk ids, by taking its least fitting run, inside which the result lies, while every other arena is kept; otherwise exactly one chunk request goes to the backend, every existing arena is kept, and the new chunk joins under its id exactly when it serves the request, its first pages becoming the chunk the result lies in; live backend allocations minus chunks is kept |
| MemoryTypePools.MemoryTypePoolAllocator.AllocateAdmitted | src/memory_allocator/memory_type_pool_allocator.rs:69-109 | for a request that passed both checks: the existing-chunk outcome when some chunk fits, and otherwise the new-chunk outcome with every existing arena kept; either way the result lies inside the run its chunk took |
| MemoryTypePools.MemoryTypePoolAllocator.AllocateFromNewChunk | src/memory_allocator/memory_type_pool_allocator.rs:79-108 | one chunk request to the backend; the chunk is added under its id exactly when the request's pages fit in a chunk, with its first pages taken and the result inside them, and otherwise the pool is unchanged; every existing chunk is kept |
| MemoryTypePools.OpenChunk | src/memory_allocator/memory_type_pool_allocator.rs:81-103 | the new chunk is split into pages and serves the request from its first run, starting at page 0, inside which the result lies; if it cannot, it is released and freed, leaving the backend's live count as it was |
| MemoryTypePools.MemoryTypePoolAllocator.AddChunk | src/memory_allocator/memory_type_pool_allocator.rs:105-107 | inserting a new chunk under a fresh id keeps the pool valid |
| MemoryTypePools.MemoryTypePoolAllocator.JoinChunk | src/memory_allocator/memory_type_pool_allocator.rs:105-107 | the pool gains exactly the new key, keeps every other chunk, and stays valid with its ids below the next one |
| MemoryTypePools.MemoryTypePoolAllocator.ExistingResultMissesLiveChunk | src/memory_allocator/memory_type_pool_allocator.rs:69-77 | a result an existing chunk served shares no byte with any allocation in a chunk that was live in that chunk's arena before the call |
| MemoryTypePools.MemoryTypePoolAllocator.Free | src/memory_allocator/memory_type_pool_allocator.rs:112-131 | the allocation goes back to the chunk keyed by its parent id; that chunk leaves the pool exactly when it becomes empty, and is then freed to the backend; live backend allocations minus chunks is kept |
| MemoryTypePools.MemoryTypePoolAllocator.DropChunk | src/memory_allocator/memory_type_pool_allocator.rs:126-130 | the chunk leaves the pool and the backend has one live allocation fewer |
| MemoryTypePools.ServedAllocationIsFreeable | src/memory_allocator/memory_type_pool_allocator.rs:112-131 | every non-empty allocation the pool serves is one that `free` accepts |
| PoolAllocators.PoolAllocator.constructor | src/memory_allocator/pool_allocator.rs:19-43 | one empty pool per memory type, in index order, all over one backend; the backend's live allocations at that moment become the router's baseline |
| PoolAllocators.PoolAllocator.PoolsStayDisjoint | src/memory_allocator/pool_allocator.rs:47-64 | after a call into one pool, no two pools share a chunk id or an arena |
| PoolAllocators.PoolAllocator.PoolsStayValid | src/memory_allocator/pool_allocator.rs:47-64 | after a call into one pool, every pool is valid again and the backend's live count is the baseline plus the total number of chunks |
| PoolAllocators.PoolAllocator.PoolsStayValidAfterShrink | src/memory_allocator/pool_allocator.rs:58-64 | after a call that only removed chunks from one pool, as `free` does, the router is valid again and every other pool keeps its chunks |
| PoolAllocators.PoolAllocator.Allocate | src/memory_allocator/pool_allocator.rs:47-56 | the request goes to the pool of its memory type and every other pool keeps its chunks; a too-large request fails with no backend call; when a chunk of that pool fits, the request succeeds from it, taking its least fitting run, with no backend call; otherwise one chunk request goes to the backend, existing arenas are kept, and the request succeeds exactly when a fresh chunk serves it, from that chunk's first pages; a result has the requested memory type and lies inside the run of pages its chunk took |
| PoolAllocators.PoolAllocator.Free | src/memory_allocator/pool_allocator.rs:58-64 | the free goes to the pool of the allocation's memory type and every other pool keeps its chunks; the chunk named by the parent id gets the pages `free` leaves; it leaves its pool exactly when it is then empty, and just then the backend loses a live allocation |
| SizedAllocators.SmallIffAlignedStepFits | src/memory_allocator/sized_allocator.rs:46-50 | with a trigger that is a multiple of the alignment, a request goes small exactly when its size plus one alignment step fits under the trigger |
| SizedAllocators.SizedAllocator.constructor | src/memory_allocator/sized_allocator.rs:24-34 | the router keeps the trigger and its two distinct backends |
| SizedAllocators.SizedAllocator.Allocate | src/memory_allocator/sized_allocator.rs:42-51 | aligned size below the trigger goes small, the trigger and above go large; the chosen backend's result is returned as it is, and the other backend is untouched |
| SizedAllocators.SizedAllocator.Free | src/memory_allocator/sized_allocator.rs:53-61 | the same rule on the stored requirements; only the chosen backend's live count drops, and the other backend is untouched |
| SizedAllocators.SizedAllocator.AllocateThenFree | src/memory_allocator/sized_allocator.rs:42-61 | allocating and then freeing the result returns both backends to their live counts, and only the chosen one has recorded the request |
| DedicatedAllocators.ForBufferGoesDedicated | src/memory_allocator/dedicated_allocator.rs:42-48 | a request made by `for_buffer` goes dedicated exactly when the driver reported either dedicated flag as `VK_TRUE` |
| DedicatedAllocators.DedicatedAllocator.constructor | src/memory_allocator/dedicated_allocator.rs:25-30 | the router keeps its two distinct backends |
| DedicatedAllocators.DedicatedAllocator.Allocate | src/memory_allocator/dedicated_allocator.rs:38-49 | a request that prefers or requires dedicated memory goes to the device allocator, and any other to the wrapped one; the result is returned as it is, and the other backend is untouched |
| DedicatedAllocators.DedicatedAllocator.Free | src/memory_allocator/dedicated_allocator.rs:51-60 | the same rule on the stored requirements, and the other backend is untouched |
| DedicatedAllocators.DedicatedAllocator.AllocateThenFree | src/memory_allocator/dedicated_allocator.rs:38-60 | allocating and then freeing returns both backends to their live counts, and only the chosen one has recorded the request |
| TraceAllocators.Metrics.RecordAllocation | src/memory_allocator/trace_allocator.rs:26-29 | both counters rise by one, within `u32`, and consistency (outstanding at most total) is kept |
| TraceAllocators.Metrics.RecordFree | src/memory_allocator/trace_allocator.rs:31-33 | only the outstanding count drops, with no `u32` underflow, and consistency is kept |
| TraceAllocators.FreeUndoesLeak | src/memory_allocator/trace_allocator.rs:26-33 | a free after an allocation restores the outstanding count and leaves the total one higher |
| TraceAllocators.Entry | src/memory_allocator/trace_allocator.rs:114-116 | a memory type without an entry counts zero (`or_default`) |
| TraceAllocators.SumBelowUpdate | src/memory_allocator/trace_allocator.rs:113-126 | replacing one per-type entry moves the sum of entries by the difference |
| TraceAllocators.AllocationKeepsTally | src/memory_allocator/trace_allocator.rs:109-119 | recording an allocation in the total and under its memory type keeps the total equal to the sum of the per-type entries, with no per-type overflow |
| TraceAllocators.FreeKeepsTally | src/memory_allocator/trace_allocator.rs:121-128 | recording a free in the total and under its memory type keeps the total equal to the sum of the entries |
| TraceAllocators.TraceAllocator.constructor | src/memory_allocator/trace_allocator.rs:47-61 | zero counters over the wrapped backend |
| TraceAllocators.TraceAllocator.Allocate | src/memory_allocator/trace_allocator.rs:109-119 | the request is counted in the total and under its memory type before the wrapped allocator sees it, and the wrapped result is returned as it is; the total stays the sum of the entries |
| TraceAllocators.TraceAllocator.Free | src/memory_allocator/trace_allocator.rs:121-128 | the free is counted in the total and under its memory type, and then delegated; the total stays the sum of the entries |
| DeviceMemories.StepsKeepConsistent | src/device_memory.rs:59-103 | map and unmap keep "no mapping means a null pointer" |
| DeviceMemories.MapOutcome | src/device_memory.rs:59-76 | a map fails exactly when the device is asked and refuses, and then nothing changes; a successful map counts one more mapping and returns the held pointer |
| DeviceMemories.UnmapOutcome | src/device_memory.rs:88-103 | an unmap fails exactly when nothing is mapped, and then nothing changes; otherwise one mapping fewer, and the last one nulls the pointer |
| DeviceMemories.RepeatedMapReturnsSamePointer | src/device_memory.rs:59-76 | once mapped, a further map returns the same pointer whatever the device would answer |
| DeviceMemories.UnmapUndoesMap | src/device_memory.rs:59-103 | an unmap undoes a successful map |
| DeviceMemories.MapsWhileMapped | src/device_memory.rs:64-75 | maps on a mapped state only count up and never reach the device |
| DeviceMemories.UnmapsWhileMapped | src/device_memory.rs:93-101 | unmaps that leave a mapping only count down; the last one reaches the device once |
| DeviceMemories.MapsThenUnmapsRestore | src/device_memory.rs:59-103 | `n >= 1` maps followed by `n` unmaps return to the unmapped state, with exactly one device map and one device unmap |
| DeviceMemories.MappedPtr.constructor | src/device_memory.rs:134-141 | the default state: nothing mapped and a null pointer |
| DeviceMemories.DeviceMemory.constructor | src/device_memory.rs:25-30 | a new handle has its own fresh, unmapped shared state |
| DeviceMemories.DeviceMemory.Clone | src/device_memory.rs:14-18 | a clone has the same memory and the same shared state |
| DeviceMemories.DeviceMemory.Map | src/device_memory.rs:59-76 | the shared state and the result follow the map transition, and the device is asked exactly when nothing was mapped |
| DeviceMemories.DeviceMemory.Unmap | src/device_memory.rs:88-103 | the shared state and the result follow the unmap transition, and the device is asked exactly when the last mapping goes |
| Scenarios.SearchFreshArena | src/memory_allocator/page_suballocator/page_arena.rs:181-185 | on five free pages, runs of 1 and 5 pages start at 0 and there is no run of 6 |
| Scenarios.SearchPatternedArena | src/memory_allocator/page_suballocator/page_arena.rs:187-191 | on twelve pages where pages 1-2 and 6-9 are two chunks and the others are free, runs of 1, 2 and 3 pages start at 0, 3 and 3, and there is no run of 4 |
| Scenarios.FillArena | src/memory_allocator/page_suballocator/page_arena.rs:195-205 | chunks of 5, 2 and 3 pages on ten pages start at 0, 5 and 7, and the pages read `0000055777` |
| Scenarios.ArenaAllocateAndFree | src/memory_allocator/page_suballocator/page_arena.rs:195-235 | after the three chunks, one page more fails; freeing pages 3, 7 and 6 leaves the arena empty with every page free |
| Scenarios.FillAligned | tests/test_page_suballocator.rs:97-187 | on 400 one-byte pages, requests of 80, 240 and 68 bytes aligned to 4 land at offsets 0, 84 and 328 |
| Scenarios.AlignedSuballocations | tests/test_page_suballocator.rs:97-187 | those offsets; a further 10-byte request fails; freeing the three leaves the suballocator empty |
| Scenarios.FillUnaligned | tests/test_paged_suballocator.rs:95-131 | with 20-byte pages, requests of 80, 240 and 80 bytes land at offsets 0, 80 and 320 and fill the parent |
| Scenarios.UnalignedSuballocations | tests/test_paged_suballocator.rs:95-193 | those offsets; a 10-byte request fails; after the 240-byte allocation is freed, two 40-byte requests land at 80 and 120 |
| Scenarios.ShortcutCanMisalign | src/memory_allocator/page_suballocator/mod.rs:83-90 | on a parent at offset 1 with 3-byte pages, the shortcut serves a request aligned to 4 at offset 1 |
| Scenarios.MismatchedTypeIsRefused | tests/test_memory_type_pool_allocator.rs:114-136 | a pool for memory type 0 refuses a request for type 1 with "memory type index mismatch" |
| Scenarios.OversizedRequestIsRefused | tests/test_memory_type_pool_allocator.rs:139-166 | a request as large as the chunk is refused, naming its size |
| Scenarios.OpenFirstChunk | tests/test_memory_type_pool_allocator.rs:78-103 | on an empty pool, a 64-byte request aligned to 128 opens one 512-byte chunk, requested with alignment 1 and otherwise the request's fields |
| Scenarios.FreeSoleAllocation | src/memory_allocator/memory_type_pool_allocator.rs:126-130 | freeing the only allocation of a chunk removes the chunk and frees it to the backend |
| Scenarios.PoolAllocateThenFree | tests/test_memory_type_pool_allocator.rs:78-111 | one chunk request to the backend, one live backend allocation after the allocation, none after the free |
| Scenarios.TooBigForPoolsIsRefused | tests/test_pool_allocator.rs:87-132 | with 64-byte chunks, requests of 64 and 128 bytes are refused |
| Scenarios.SharedMapping | tests/test_memory_mapped_buffer.rs:188-198 | maps of a memory and its clone return the pointer of the first, the device maps and unmaps once, and an unmap past the last mapping is an error |

## Left out

- `ComposableAllocator` is an interface. The routers and decorators are
  defined over the concrete `FakeAllocator` rather than over any
  implementation of it, because the model has no interface types. Their
  routing rules are stated as predicates that do not depend on the backend.
- `DeviceAllocator` (`vkAllocateMemory`/`vkFreeMemory`) and
  `MemoryAllocator` (buffer create, bind and destroy) are foreign calls and
  are not part of this model.
- Backend failures are not modelled, because the only backend here,
  `FakeAllocator`, never fails. So the `?` after the backend call in
  `MemoryTypePoolAllocator::allocate` is not modelled, and neither is a
  `TraceAllocator` counting a failed wrapped allocation. The counting
  itself happens before delegation, as in the source.
- The device queries are parameters:
  - the result of `get_buffer_memory_requirements2` (`QueriedRequirements`);
  - the memory-type list from `MemoryProperties::new`;
  - the device's answer to `map_memory`.

  `Device` records the map and unmap calls in place of the driver.
- Formatting and logging are left out: `Debug`/`Display`, the
  `TraceAllocator` report on drop, and `pretty_wrappers.rs`, which uses
  floating point.
- `TraceAllocators.TraceAllocator.constructor` leaves out the report's name
  and memory properties, which only feed that report.
- Locking is not modelled. `Arc<Mutex<..>>` becomes one shared object
  reference: the shared pool backend and `DeviceMemory`'s `MappedPtr`.
- Integer widths: sizes, offsets and counts are unbounded naturals, so `u64`
  overflow is not modelled. The `u32` counters of `TraceAllocator`'s metrics
  and of `MappedPtr` are bounded by preconditions (`U32_LIMIT`) where they
  could overflow.
- `Backends.FakeAllocator.Allocate`: its `u32` `active_allocations` is an
  unbounded natural, so the overflow panic at 2^32 live allocations is not
  modelled. A bound there would have to be carried by every pool and router
  built over the fake backend.
- Which existing chunk serves a request is left open. The source iterates a
  `HashMap`, whose order is unspecified.
- `src/allocation.rs` does not show the allocation record its callers use.
  Its shown constructor takes three arguments, while callers pass memory type
  and requirements as well, and call `id`, `parent_id` and `suballocate`,
  which the file does not show. `Allocation` carries the fields those uses
  need. How `Allocation::new` picks an id is not shown either: ids are
  assumed unique per backend, and the fake backend's id is its allocation
  counter, which the pool's fresh chunk keys and its `debug_assert` on
  them rely on.
- `Allocations.Suballocate`, `Requirements.AlignedSize`: neither body is
  part of this model. `Suballocate` keeps the parent's memory, adds the
  relative offset and names the top-level chunk as parent, which keeps the
  `debug_assert` on parent ids true. `AlignedSize` is assumed to round the
  size up to the least multiple of the alignment. The routing limits of
  `SizedAllocators.SmallIffAlignedStepFits` and the concrete refusals and
  chunk requests of `Scenarios.OversizedRequestIsRefused`,
  `Scenarios.OpenFirstChunk` and `Scenarios.TooBigForPoolsIsRefused` rest on
  that rounding; the other proofs use only that it is at least the size.
- Panics become preconditions:
  - an unknown memory type in `PoolAllocator`;
  - `set_region` outside the bitmap;
  - `for_allocation` with a size that is not a multiple of the page size;
  - a zero alignment or page size (division by zero);
  - `u32` underflow of a free count;
  - `free_chunk` on a page index outside the arena, which indexes `pages`
    (`PageArenas.PageArena.FreeChunk` requires `index < |pages|`);
  - `PageSuballocator::free` of memory of the parent at an offset below the
    parent's, a `u64` subtraction underflow, or on a page outside the
    arena, an index panic;
  - more than 32 memory types in `for_buffer`, where `1 << index` on 32
    bits overflows (`Requirements.FindFrom` requires at most
    `MAX_MEMORY_TYPES`, which is 32).
- `free_chunk` on a free page follows the release build, where the
  `debug_assert` is off: nothing changes.
- `find_first_free_chunk(0)` and `linear_probe(_, 0)` also follow the
  release build: `page_count - 1` wraps around, so nothing is found.
- `NullAllocator::free` does nothing, so it has no model.
- `PageSuballocators.PageSuballocator.Allocate`: on the shortcut path the
  result is not promised to be aligned, because the source's test
  `(offset + page_size) % alignment == 0` does not imply it.
  `Scenarios.ShortcutCanMisalign` shows such a case, and
  `ShortcutAlignedWhenBaseAndPageAligned` the condition under which it is
  aligned.
- `PageSuballocators.FreeFindsItsChunk` and
  `MemoryTypePools.ServedAllocationIsFreeable` require a non-empty
  allocation. For size 0 on the padded path, the correction can place the
  result one page past its chunk, so `free` might not find it.
- The following tests are not replayed:
  - the memory-type pool's `test_multiple_allocations`;
  - the pool allocator's `test_allocate_and_free`;
  - the sized allocator's tests;
  - the dedicated allocator's tests.

  The contracts leave open which existing chunk serves a request, because
  the source iterates a `HashMap`; within that chunk the pages are fixed,
  as the least free run that fits.
  `Valid` on `PoolAllocator` states that different memory types never share
  a chunk, and `Allocate` and `Free` keep that. The routers' tests are
  covered by their general `AllocateThenFree` contracts.
- The panicking tests (`should_panic` on an invalid memory type index, and
  `set_region` outside the bitmap) become preconditions, as above.
- Tests that need a GPU have no model, apart from the mapped-buffer test's
  repeated mapping, which `Scenarios.SharedMapping` follows.
