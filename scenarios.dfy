/** The repository's test scenarios, replayed on the model: each method
    builds the allocators a test builds, makes the same calls, and states in
    its contract the outcomes the test asserts. */
module Scenarios {
  import opened Errors
  import opened Requirements
  import opened Allocations
  import opened PageArenas
  import opened PageSuballocators
  import opened Backends
  import opened MemoryTypePools
  import opened PoolAllocators
  import opened DeviceMemories

  /** First fit when every page before `start` is taken and `count` pages
      from `start` are free: the chunk starts at `start`. */
  lemma FirstFitIsAt(pages: seq<Page>, start: nat, count: nat, s: nat)
    requires 0 < count && FreeRun(pages, start, count)
    requires forall t :: 0 <= t < start ==> pages[t].Allocated?
    requires FreeRun(pages, s, count) && forall t: nat :: t < s ==> !FreeRun(pages, t, count)
    ensures s == start
  {
    assert pages[s] == Free;
    assert s >= start;
    assert s <= start;
  }

  /** With no free page before `free` and fewer than `count` pages from
      `free` on, no run of `count` free pages exists. */
  lemma NoRoomFor(pages: seq<Page>, free: nat, count: nat)
    requires forall t :: 0 <= t < |pages| && t < free ==> pages[t].Allocated?
    requires 0 < count && |pages| < free + count
    ensures forall s: nat :: !FreeRun(pages, s, count)
  {
    forall s: nat
      ensures !FreeRun(pages, s, count)
    {
      if s + count <= |pages| {
        assert pages[s].Allocated?;
      }
    }
  }

  /** The runs of free pages in `f|1|1|f|f|f|6|6|6|6|f|f`. */
  lemma PatternRuns(pages: seq<Page>)
    requires pages == [Free, Allocated(1), Allocated(1), Free, Free, Free,
                       Allocated(6), Allocated(6), Allocated(6), Allocated(6), Free, Free]
    ensures FreeRun(pages, 0, 1) && FreeRun(pages, 3, 2) && FreeRun(pages, 3, 3)
    ensures forall t: nat :: t < 3 ==> !FreeRun(pages, t, 2) && !FreeRun(pages, t, 3)
    ensures forall s: nat :: !FreeRun(pages, s, 4)
  {
    forall t: nat | t < 3 ensures !FreeRun(pages, t, 2) && !FreeRun(pages, t, 3) {
      var w := if t == 0 then 1 else t;
      assert pages[w] != Free;
    }
    forall s: nat ensures !FreeRun(pages, s, 4) {
      // a page of [s, s + 4) that is not free
      var w := if s == 0 then 1 else if s < 3 then s else if s < 6 then 6 else s;
      if s + 4 <= |pages| {
        assert s <= w < s + 4 && pages[w] != Free;
      }
    }
  }

  /** The first half of `test_find_first_free_chunk`: on five free pages runs
      of 1 and 5 pages start at 0, and there is no run of 6. */
  method SearchFreshArena() returns (r: seq<Option<nat>>)
    ensures r == [Some(0), Some(0), None]
  {
    var arena := new PageArena(5);
    assert FreeRun(arena.pages, 0, 5) && FreeRun(arena.pages, 0, 1);
    var a := arena.FindFirstFreeChunk(1);
    var b := arena.FindFirstFreeChunk(5);
    var c := arena.FindFirstFreeChunk(6);
    r := [a, b, c];
  }

  /** The second half of `test_find_first_free_chunk`: on the pages
      `f|1|1|f|f|f|6|6|6|6|f|f` runs of 1, 2 and 3 pages start at 0, 3 and 3,
      and there is no run of 4. */
  method SearchPatternedArena() returns (r: seq<Option<nat>>)
    ensures r == [Some(0), Some(3), Some(3), None]
  {
    var arena := new PageArena(5);
    arena.pages := [Free, Allocated(1), Allocated(1), Free, Free, Free,
                    Allocated(6), Allocated(6), Allocated(6), Allocated(6), Free, Free];
    arena.allocationCount := 2;
    PatternRuns(arena.pages);
    var d := arena.FindFirstFreeChunk(1);
    var e := arena.FindFirstFreeChunk(2);
    var f := arena.FindFirstFreeChunk(3);
    var g := arena.FindFirstFreeChunk(4);
    r := [d, e, f, g];
  }

  /** `allocate_chunk(count)` where the first free run is known to begin at
      `start`. */
  method AllocateChunkAt(arena: PageArena, count: nat, start: nat) returns (r: nat)
    requires arena.Valid() && 0 < count && FreeRun(arena.pages, start, count)
    requires forall t :: 0 <= t < start ==> arena.pages[t].Allocated?
    modifies arena
    ensures arena.Valid() && r == start
    ensures arena.pages == WithChunk(old(arena.pages), start, count)
    ensures arena.allocationCount == old(arena.allocationCount) + 1
  {
    ghost var pages := arena.pages;
    var found := arena.AllocateChunk(count);
    FirstFitIsAt(pages, start, count, found.value);
    r := found.value;
  }

  /** The allocations of `test_page_arena_allocation` on ten free pages:
      chunks of 5, 2 and 3 pages start at 0, 5 and 7 and fill the arena. */
  method FillArena(arena: PageArena) returns (starts: seq<nat>)
    requires arena.Valid() && arena.pages == seq(10, _ => Free)
    modifies arena
    ensures arena.Valid() && starts == [0, 5, 7] && |arena.pages| == 10
    ensures forall t :: 0 <= t < 10 ==>
      arena.pages[t] == (if t < 5 then Allocated(0) else if t < 7 then Allocated(5) else Allocated(7))
  {
    var r1 := AllocateChunkAt(arena, 5, 0);
    var r2 := AllocateChunkAt(arena, 2, 5);
    var r3 := AllocateChunkAt(arena, 3, 7);
    starts := [r1, r2, r3];
  }

  /** `test_page_arena_allocation` and `test_page_arena_allocate_and_free`:
      on ten pages, chunks of 5, 2 and 3 pages start at 0, 5 and 7, after
      which not even one page is free; freeing page 3 (inside the first
      chunk), page 7 (the start of the third) and page 6 (the end of the
      second) leaves the arena empty with every page free. */
  method ArenaAllocateAndFree() returns (starts: seq<nat>, full: Option<nat>, empty: bool, allFree: bool)
    ensures starts == [0, 5, 7] && full == None
    ensures empty && allFree
  {
    var arena := new PageArena(10);
    starts := FillArena(arena);
    ChunkCountIsStartCount(arena.pages);
    assert ChunkStarts(arena.pages) == {0, 5, 7};
    NoRoomFor(arena.pages, 10, 1);
    full := arena.AllocateChunk(1);
    arena.FreeChunk(3);
    assert arena.pages[7] == Allocated(7);
    arena.FreeChunk(7);
    assert arena.pages[6] == Allocated(5);
    arena.FreeChunk(6);
    empty := arena.IsEmpty();
    EmptyIffNoChunks(arena);
    EmptyIffAllFree(arena.pages);
    allFree := forall j :: 0 <= j < |arena.pages| ==> arena.pages[j] == Free;
  }

  /** `allocate(size, alignment)` where the first free run is known to begin
      at `start`, on the padded path. */
  method AllocatePaddedAt(sub: PageSuballocator, size: nat, alignment: nat, start: nat) returns (a: Allocation)
    requires sub.Valid() && alignment > 0 && !sub.TakesShortcut(alignment)
    requires FreeRun(sub.arena.pages, start, sub.PagesFor(size, alignment)) && sub.PagesFor(size, alignment) > 0
    requires forall t :: 0 <= t < start ==> sub.arena.pages[t].Allocated?
    modifies sub.arena
    ensures sub.Valid()
    ensures sub.arena.pages == WithChunk(old(sub.arena.pages), start, sub.PagesFor(size, alignment))
    ensures sub.arena.allocationCount == old(sub.arena.allocationCount) + 1
    ensures var chunkOffset := sub.allocation.offsetInBytes + sub.PageOffset(start);
      a == Suballocate(sub.allocation, sub.PageOffset(start) + AlignmentCorrection(chunkOffset, alignment), size)
  {
    ghost var pages := sub.arena.pages;
    var r, s := sub.Allocate(size, alignment);
    FirstFitIsAt(pages, start, sub.PagesFor(size, alignment), s);
    a := r.value;
  }

  /** `allocate_unaligned(size)` where the first free run is known to begin
      at `start`. */
  method AllocateUnalignedAt(sub: PageSuballocator, size: nat, start: nat) returns (a: Allocation)
    requires sub.Valid()
    requires FreeRun(sub.arena.pages, start, DivCeil(size, sub.pageSize)) && DivCeil(size, sub.pageSize) > 0
    requires forall t :: 0 <= t < start ==> sub.arena.pages[t].Allocated?
    modifies sub.arena
    ensures sub.Valid()
    ensures sub.arena.pages == WithChunk(old(sub.arena.pages), start, DivCeil(size, sub.pageSize))
    ensures sub.arena.allocationCount == old(sub.arena.allocationCount) + 1
    ensures a == Suballocate(sub.allocation, sub.PageOffset(start), size)
  {
    ghost var pages := sub.arena.pages;
    var r, s := sub.AllocateUnaligned(size);
    FirstFitIsAt(pages, start, DivCeil(size, sub.pageSize), s);
    a := r.value;
  }

  /** The three allocations of `test_page_suballocator` on a fresh 400-page
      suballocator at offset 0, with their offsets and the pages they leave. */
  method FillAligned(sub: PageSuballocator) returns (a1: Allocation, a2: Allocation, a3: Allocation)
    requires sub.Valid() && sub.pageSize == 1 && sub.allocation.offsetInBytes == 0
    requires sub.arena.pages == seq(400, _ => Free) && sub.arena.allocationCount == 0
    modifies sub.arena
    ensures sub.Valid() && |sub.arena.pages| == 400 && sub.arena.allocationCount == 3
    ensures a1.offsetInBytes == 0 && a2.offsetInBytes == 84 && a3.offsetInBytes == 328
    ensures a1.memory == a2.memory == a3.memory == sub.allocation.memory
    ensures forall t :: 0 <= t < 400 ==>
      sub.arena.pages[t] == (if t < 83 then Allocated(0) else if t < 326 then Allocated(83)
                             else if t < 397 then Allocated(326) else Free)
  {
    assert !sub.TakesShortcut(4);
    assert sub.PagesFor(80, 4) == 83 && sub.PagesFor(240, 4) == 243 && sub.PagesFor(68, 4) == 71;
    a1 := AllocatePaddedAt(sub, 80, 4, 0);
    assert AlignmentCorrection(0, 4) == 0;
    a2 := AllocatePaddedAt(sub, 240, 4, 83);
    assert 83 % 4 == 3 && AlignmentCorrection(83, 4) == 1;
    ghost var p2 := sub.arena.pages;
    assert forall t :: 0 <= t < 326 ==> p2[t].Allocated?;
    a3 := AllocatePaddedAt(sub, 68, 4, 326);
    assert 326 % 4 == 2 && AlignmentCorrection(326, 4) == 2;
  }

  /** `test_page_suballocator`: a 400-byte parent at offset 0 cut into 1-byte
      pages, with every request aligned to 4. The offset plus the page size is
      not a multiple of 4, so each request carries 3 bytes of slack and is moved
      up to the next multiple of 4. Requests of 80, 240 and 68 bytes land at
      offsets 0, 84 and 328; a fourth of 10 bytes finds no 13 free pages; once
      the three are freed the suballocator is empty again. */
  method AlignedSuballocations() returns (offsets: seq<nat>, fourthFails: bool, emptyAfterFree: bool)
    ensures offsets == [0, 84, 328]
    ensures fourthFails && emptyAfterFree
  {
    var parent := Allocation(0, None, 1, 0, 0, 400, DefaultRequirements());
    var sub := new PageSuballocator.ForAllocation(parent, 1);
    var a1, a2, a3 := FillAligned(sub);
    offsets := [a1.offsetInBytes, a2.offsetInBytes, a3.offsetInBytes];

    NoRoomFor(sub.arena.pages, 397, 13);
    assert !sub.TakesShortcut(4) && sub.PagesFor(10, 4) == 13;
    var r4, _ := sub.Allocate(10, 4);
    fourthFails := r4.Err?;

    sub.Free(a1);
    assert sub.arena.allocationCount == 2 && sub.arena.pages[84] == Allocated(83);
    sub.Free(a2);
    assert sub.arena.allocationCount == 1 && sub.arena.pages[328] == Allocated(326);
    sub.Free(a3);
    emptyAfterFree := sub.IsEmpty();
  }

  /** The three allocations of `test_paged_suballocator` on a fresh
      suballocator of 20 pages of 20 bytes at offset 0. */
  method FillUnaligned(sub: PageSuballocator) returns (a1: Allocation, a2: Allocation, a3: Allocation)
    requires sub.Valid() && sub.pageSize == 20 && sub.allocation.offsetInBytes == 0
    requires sub.arena.pages == seq(20, _ => Free)
    modifies sub.arena
    ensures sub.Valid() && |sub.arena.pages| == 20
    ensures a1.offsetInBytes == 0 && a2.offsetInBytes == 80 && a3.offsetInBytes == 320
    ensures a2.memory == sub.allocation.memory
    ensures forall t :: 0 <= t < 20 ==>
      sub.arena.pages[t] == (if t < 4 then Allocated(0) else if t < 16 then Allocated(4) else Allocated(16))
  {
    assert DivCeil(80, 20) == 4 && DivCeil(240, 20) == 12;
    a1 := AllocateUnalignedAt(sub, 80, 0);
    a2 := AllocateUnalignedAt(sub, 240, 4);
    a3 := AllocateUnalignedAt(sub, 80, 16);
  }

  /** `test_paged_suballocator`: a 400-byte parent cut into 20 pages of 20
      bytes, allocated without alignment. Requests of 80, 240 and 80 bytes take
      pages 0-3, 4-15 and 16-19 (offsets 0, 80 and 320), so a request of 10
      bytes fails; once the 240-byte allocation is freed, two requests of 40
      bytes reuse its first pages at offsets 80 and 120. */
  method UnalignedSuballocations() returns (offsets: seq<nat>, fourthFails: bool, reused: seq<nat>)
    ensures offsets == [0, 80, 320]
    ensures fourthFails
    ensures reused == [80, 120]
  {
    var parent := Allocation(0, None, 1, 0, 0, 400, DefaultRequirements());
    var sub := new PageSuballocator.ForAllocation(parent, 20);
    var a1, a2, a3 := FillUnaligned(sub);
    offsets := [a1.offsetInBytes, a2.offsetInBytes, a3.offsetInBytes];

    NoRoomFor(sub.arena.pages, 20, 1);
    assert DivCeil(10, 20) == 1;
    var r4, _ := sub.AllocateUnaligned(10);
    fourthFails := r4.Err?;

    assert sub.PageIndex(a2) == 4;
    sub.Free(a2);
    ghost var p := sub.arena.pages;
    assert forall t :: 0 <= t < 20 ==>
      p[t] == (if t < 4 then Allocated(0) else if t < 16 then Free else Allocated(16));
    assert DivCeil(40, 20) == 2;
    var a5 := AllocateUnalignedAt(sub, 40, 4);
    var a6 := AllocateUnalignedAt(sub, 40, 6);
    reused := [a5.offsetInBytes, a6.offsetInBytes];
  }

  /** The shortcut of `allocate` on a parent at offset 1 with 3-byte pages:
      offset plus page size is a multiple of 4, so a 3-byte request aligned to
      4 is served unpadded from page 0, at offset 1, which is not a multiple
      of 4. */
  method ShortcutCanMisalign() returns (r: Result<Allocation>)
    ensures r.Ok? && r.value.offsetInBytes == 1 && r.value.offsetInBytes % 4 != 0
  {
    var parent := Allocation(0, None, 1, 0, 1, 12, DefaultRequirements());
    var sub := new PageSuballocator.ForAllocation(parent, 3);
    assert sub.TakesShortcut(4) && DivCeil(3, 3) == 1;
    assert FreeRun(sub.arena.pages, 0, 1);
    ghost var start;
    r, start := sub.Allocate(3, 4);
    assert start == 0;
  }

  /** `test_allocate_with_mismatching_type_index_should_fail`: a pool for
      memory type 0 refuses a request for memory type 1. */
  method MismatchedTypeIsRefused() returns (r: Result<Allocation>)
    ensures r == Err(RuntimeError(MemoryTypeIndexMismatch))
  {
    var fake := new FakeAllocator();
    var pool := new MemoryTypePoolAllocator(0, 32, 1, fake);
    r := pool.Allocate(DefaultRequirements().(memoryTypeIndex := 1));
  }

  /** `test_allocate_with_oversized_allocation_requirements`: a request as
      large as the 64-byte chunk is refused, naming its size. */
  method OversizedRequestIsRefused() returns (r: Result<Allocation>)
    ensures r == Err(RuntimeError(ChunkTooSmall(64)))
  {
    var fake := new FakeAllocator();
    var pool := new MemoryTypePoolAllocator(0, 64, 1, fake);
    var req := DefaultRequirements().(sizeInBytes := 64, alignment := 2);
    assert AlignedSize(req) == 64;
    r := pool.Allocate(req);
  }

  /** Freeing the only allocation of a chunk hands the chunk back to the
      backend. */
  method FreeSoleAllocation(pool: MemoryTypePoolAllocator, a: Allocation)
    requires pool.Frees(a) && SoleAllocation(pool.pool[a.parentId.value], a)
    requires |pool.pool| <= pool.backend.activeAllocations
    modifies pool, pool.backend, pool.pool[a.parentId.value].arena
    ensures pool.Valid() && a.parentId.value !in pool.pool
    ensures pool.pool == old(pool.pool) - {a.parentId.value}
    ensures pool.backend.activeAllocations == old(pool.backend.activeAllocations) - 1
  {
    var sub := pool.pool[a.parentId.value];
    ghost var before := sub.arena.pages;
    ghost var first := before[sub.PageIndex(a)].firstInChunk;
    assert before[first] == Allocated(first);
    ChunkCountIsStartCount(before);
    RemoveChunkKeepsShape(before, first);
    pool.Free(a);
    ChunkCountIsStartCount(sub.arena.pages);
  }

  /** The allocation of `test_allocate_and_free` on an empty pool over a
      fresh backend: one chunk is opened, and the allocation is its only one. */
  method OpenFirstChunk(pool: MemoryTypePoolAllocator, req: AllocationRequirements) returns (a: Allocation)
    requires pool.Valid() && pool.pool == map[] && pool.memoryTypeIndex == 0
    requires pool.chunkSize == 512 && pool.pageSize == 8
    requires pool.backend.Valid() && pool.backend.allocations == []
    requires pool.backend.offset == 0 && pool.backend.allocationCount == 0 && pool.backend.activeAllocations == 0
    requires req == DefaultRequirements().(sizeInBytes := 64, alignment := 128)
    modifies pool, pool.backend
    ensures pool.Valid() && pool.backend.Valid() && pool.pool.Keys == {0}
    ensures pool.Frees(a) && SoleAllocation(pool.pool[0], a) && a.parentId == Some(0)
    ensures fresh(pool.pool[0].arena)
    ensures a.sizeInBytes == 64
    ensures pool.backend.allocations == [DefaultRequirements().(sizeInBytes := 512, alignment := 1)]
    ensures pool.backend.activeAllocations == 1
  {
    assert AlignedSize(req) == 128;
    assert PageCount(0, 8, 64, 128) == 24;
    var r := pool.Allocate(req);
    a := r.value;
    ServedAllocationIsFreeable(pool, a, req);
  }

  /** `test_allocate_and_free` of the memory type pool: a 64-byte request
      aligned to 128 opens one 512-byte chunk, requested from the backend with
      alignment 1 and otherwise the request's fields; freeing the allocation
      hands the chunk back, leaving no live backend allocation. */
  method PoolAllocateThenFree() returns (a: Allocation, chunkRequests: seq<AllocationRequirements>,
                                         activeAfterAllocate: nat, activeAfterFree: nat)
    ensures a.sizeInBytes == 64
    ensures chunkRequests == [DefaultRequirements().(sizeInBytes := 512, alignment := 1)]
    ensures activeAfterAllocate == 1 && activeAfterFree == 0
  {
    var fake := new FakeAllocator();
    var pool := new MemoryTypePoolAllocator(0, 512, 8, fake);
    a := OpenFirstChunk(pool, DefaultRequirements().(sizeInBytes := 64, alignment := 128));
    chunkRequests := fake.allocations;
    activeAfterAllocate := fake.activeAllocations;

    FreeSoleAllocation(pool, a);
    activeAfterFree := fake.activeAllocations;
  }

  /** `test_allocation_should_fail_when_too_big`: with 64-byte chunks, the
      pool allocator refuses requests of 64 and of 128 bytes. */
  method TooBigForPoolsIsRefused() returns (r1: Result<Allocation>, r2: Result<Allocation>)
    ensures r1 == Err(RuntimeError(ChunkTooSmall(64)))
    ensures r2 == Err(RuntimeError(ChunkTooSmall(128)))
  {
    var fake := new FakeAllocator();
    var allocator := new PoolAllocator([MemoryType(0, 0)], 64, 1, fake);
    var req := DefaultRequirements().(sizeInBytes := 64, alignment := 1);
    assert AlignedSize(req) == 64;
    r1 := allocator.Allocate(req);
    assert AlignedSize(req.(sizeInBytes := 128)) == 128;
    r2 := allocator.Allocate(req.(sizeInBytes := 128));
  }

  /** Two handles on one memory share its mapping: both maps return the
      pointer of the first, the device maps and unmaps once, and an unmap
      past the last mapping is an error. */
  method SharedMapping() returns (first: Result<nat>, second: Result<nat>, extra: Result<()>,
                                  mapCalls: seq<nat>, unmapCalls: seq<nat>)
    ensures first == Ok(42) && second == Ok(42)
    ensures extra == Err(RuntimeError(UnmapWithoutMapping))
    ensures mapCalls == [7] && unmapCalls == [7]
  {
    var device := new Device();
    var memory := new DeviceMemory(7);
    var clone := memory.Clone();
    first := memory.Map(device, Some(42));
    second := clone.Map(device, Some(99));
    var _ := memory.Unmap(device);
    var _ := clone.Unmap(device);
    extra := clone.Unmap(device);
    mapCalls, unmapCalls := device.mapCalls, device.unmapCalls;
  }
}
