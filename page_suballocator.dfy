/** Byte-level suballocation from one parent allocation
    (`page_suballocator/mod.rs`): requests become page counts with `div_ceil`,
    pages come from a `PageArena`, and a result's offset is the parent's offset
    plus the chunk's first page times the page size. */
module PageSuballocators {
  import opened Errors
  import opened Arithmetic
  import opened Requirements
  import opened Allocations
  import opened PageArenas

  /** `div_ceil(top, bottom)`: the least `q` with `q * bottom >= top`. */
  function DivCeil(top: nat, bottom: nat): (q: nat)
    requires bottom > 0
    ensures q * bottom >= top
    ensures q == 0 || (q - 1) * bottom < top
  {
    DivisionIsUnique(top, bottom, top / bottom, top % bottom);
    top / bottom + (if top % bottom != 0 then 1 else 0)
  }

  /** No smaller count of pages covers `top` bytes. */
  lemma DivCeilIsLeast(top: nat, bottom: nat, q: nat)
    requires bottom > 0 && q * bottom >= top
    ensures DivCeil(top, bottom) <= q
  {
    var c := DivCeil(top, bottom);
    if q < c {
      MultiplyIsMonotonic(q, c - 1, bottom);
      assert false;
    }
  }

  /** How far `offset` must move up to reach a multiple of `alignment` (the
      `alignment_correction` block); it is always below the alignment. */
  function AlignmentCorrection(offset: nat, alignment: nat): (c: nat)
    requires alignment > 0
    ensures c < alignment
    ensures (offset + c) % alignment == 0
    ensures offset % alignment == 0 ==> c == 0
  {
    if offset % alignment == 0 then 0
    else
      DivisionIsUnique(offset + (alignment - offset % alignment), alignment, offset / alignment + 1, 0);
      alignment - offset % alignment
  }

  /** The pages `allocate(size, alignment)` asks for on a parent at `offset`
      split into `pageSize` pages: `size` bytes when the shortcut applies,
      `alignment - 1` bytes of slack more otherwise. */
  function PageCount(offset: nat, pageSize: nat, size: nat, alignment: nat): nat
    requires pageSize > 0 && alignment > 0
  {
    if (offset + pageSize) % alignment == 0 then DivCeil(size, pageSize)
    else DivCeil(size + (alignment - 1), pageSize)
  }

  class PageSuballocator {
    const allocation: Allocation
    const pageSize: nat
    const arena: PageArena

    /** The arena's pages exactly tile the parent allocation. */
    ghost predicate Valid()
      reads arena
    {
      pageSize > 0 && arena.Valid() && |arena.pages| * pageSize == allocation.sizeInBytes
    }

    /** `a` is memory of the parent allocation and lies inside it. */
    ghost predicate InParent(a: Allocation)
    {
      && a.memory == allocation.memory
      && allocation.offsetInBytes <= a.offsetInBytes
      && a.offsetInBytes + a.sizeInBytes <= allocation.offsetInBytes + allocation.sizeInBytes
    }

    /** The `size` bytes at `offset` lie inside pages `[start, start + count)`
        of the parent. */
    ghost predicate BytesInChunk(offset: nat, size: nat, start: nat, count: nat)
    {
      && allocation.offsetInBytes + start * pageSize <= offset
      && offset + size <= allocation.offsetInBytes + (start + count) * pageSize
    }

    /** `a` lies inside pages `[start, start + count)` of the parent. */
    ghost predicate InChunk(a: Allocation, start: nat, count: nat)
    {
      BytesInChunk(a.offsetInBytes, a.sizeInBytes, start, count)
    }

    /** `for_allocation`: one arena page per `pageSize` bytes of the parent. The
        source panics unless the size is a multiple of the page size (and a
        page size of 0 is a division by zero). */
    constructor ForAllocation(allocation: Allocation, pageSize: nat)
      requires pageSize > 0 && allocation.sizeInBytes % pageSize == 0
      ensures Valid() && fresh(arena)
      ensures this.allocation == allocation && this.pageSize == pageSize
      ensures arena.pages == seq(allocation.sizeInBytes / pageSize, _ => Page.Free)
      ensures IsEmpty()
    {
      this.allocation := allocation;
      this.pageSize := pageSize;
      arena := new PageArena(allocation.sizeInBytes / pageSize);
      new;
      DivisionIsUnique(allocation.sizeInBytes, pageSize, allocation.sizeInBytes / pageSize, 0);
    }

    /** `release_allocation`: hands back the parent allocation, which the
        arena's pages cover exactly. */
    function ReleaseAllocation(): (a: Allocation)
      reads arena
      ensures a == allocation
      ensures Valid() ==> a.sizeInBytes == |arena.pages| * pageSize
    {
      allocation
    }

    /** `is_empty`: no live suballocation. */
    predicate IsEmpty()
      reads arena
    {
      arena.IsEmpty()
    }

    /** Whether `allocate` takes the shortcut for `alignment`: the source tests
        `(offset + page_size) % alignment == 0`. */
    predicate TakesShortcut(alignment: nat)
      requires alignment > 0
    {
      (allocation.offsetInBytes + pageSize) % alignment == 0
    }

    /** Where page `page` starts, in bytes from the start of the parent. */
    function PageOffset(page: nat): nat
    {
      page * pageSize
    }

    /** The number of pages `allocate(size, alignment)` asks the arena for. */
    function PagesFor(size: nat, alignment: nat): (k: nat)
      requires pageSize > 0 && alignment > 0
      ensures TakesShortcut(alignment) ==> k * pageSize >= size
      ensures !TakesShortcut(alignment) ==> k * pageSize >= size + (alignment - 1)
    {
      PageCount(allocation.offsetInBytes, pageSize, size, alignment)
    }

    /** `allocate_unaligned`: `div_ceil(size, page)` pages from the arena,
        first fit; the result starts at the chunk's first page. With no free run
        that long (or a size of 0, which asks for no pages) the arena is
        unchanged and the error is "Unable to find a contiguous chunk". */
    method AllocateUnaligned(size: nat) returns (r: Result<Allocation>, ghost start: nat)
      requires Valid()
      modifies arena
      ensures Valid()
      ensures var k := DivCeil(size, pageSize);
        r.Err? <==> k == 0 || forall s: nat :: !old(FreeRun(arena.pages, s, k))
      ensures r.Err? ==> r.error == RuntimeError(NoContiguousChunk)
      ensures r.Err? ==> unchanged(arena)
      ensures r.Ok? ==> var k := DivCeil(size, pageSize);
        && old(FreeRun(arena.pages, start, k))
        && (forall s: nat :: s < start ==> !old(FreeRun(arena.pages, s, k)))
        && arena.pages == WithChunk(old(arena.pages), start, k)
        && arena.allocationCount == old(arena.allocationCount) + 1
        && r.value == Suballocate(allocation, PageOffset(start), size)
        && InChunk(r.value, start, k)
        && InParent(r.value)
    {
      var k := DivCeil(size, pageSize);
      var found := arena.AllocateChunk(k);
      if found.None? {
        return Err(RuntimeError(NoContiguousChunk)), 0;
      }
      var first := found.value;
      start := first;
      r := Ok(Suballocate(allocation, PageOffset(first), size));
      ChunkBytesInside(pageSize, first, k, |arena.pages|, size);
    }

    /** `allocate(size, alignment)`. When `TakesShortcut(alignment)` the request
        is `allocate_unaligned(size)`. Otherwise `alignment - 1` bytes of slack
        are added, and the result is moved up by `AlignmentCorrection` (at most
        `alignment - 1`) to the next multiple of the alignment; it stays inside
        the padded chunk. A zero alignment is a division by zero in the source. */
    method Allocate(size: nat, alignment: nat) returns (r: Result<Allocation>, ghost start: nat)
      requires Valid() && alignment > 0
      modifies arena
      ensures Valid()
      ensures var k := PagesFor(size, alignment);
        r.Err? <==> k == 0 || forall s: nat :: !old(FreeRun(arena.pages, s, k))
      ensures r.Err? ==> r.error == RuntimeError(NoContiguousChunk)
      ensures r.Err? ==> unchanged(arena)
      ensures r.Ok? ==> var k := PagesFor(size, alignment);
        && old(FreeRun(arena.pages, start, k))
        && (forall s: nat :: s < start ==> !old(FreeRun(arena.pages, s, k)))
        && arena.pages == WithChunk(old(arena.pages), start, k)
        && arena.allocationCount == old(arena.allocationCount) + 1
        && r.value.sizeInBytes == size
        && InChunk(r.value, start, k)
        && InParent(r.value)
      ensures r.Ok? && TakesShortcut(alignment) ==>
        r.value == Suballocate(allocation, PageOffset(start), size)
      ensures r.Ok? && !TakesShortcut(alignment) ==>
        var chunkOffset := allocation.offsetInBytes + PageOffset(start);
        && r.value == Suballocate(allocation, PageOffset(start) + AlignmentCorrection(chunkOffset, alignment), size)
        && r.value.offsetInBytes % alignment == 0
    {
      if (allocation.offsetInBytes + pageSize) % alignment == 0 {
        r, start := AllocateUnaligned(size);
        return;
      }
      var unaligned;
      unaligned, start := AllocateUnaligned(size + (alignment - 1));
      if unaligned.Err? {
        return Err(unaligned.error), start;
      }
      var chunk := unaligned.value;
      var correction := if chunk.offsetInBytes % alignment == 0 then 0
        else alignment - chunk.offsetInBytes % alignment;
      assert correction == AlignmentCorrection(chunk.offsetInBytes, alignment);
      r := Ok(Suballocate(chunk, correction, size));
    }

    /** The page `free` hands to the arena: `(offset - base) / page_size`. */
    function PageIndex(a: Allocation): nat
      requires pageSize > 0 && allocation.offsetInBytes <= a.offsetInBytes
    {
      (a.offsetInBytes - allocation.offsetInBytes) / pageSize
    }

    /** The pages `free(a)` leaves: unchanged for other memory or a page that
        is already free, and without the chunk holding page `PageIndex(a)`
        otherwise. */
    ghost function PagesAfterFree(a: Allocation): seq<Page>
      requires pageSize > 0
      requires a.memory == allocation.memory ==>
        allocation.offsetInBytes <= a.offsetInBytes && PageIndex(a) < |arena.pages|
      reads arena
    {
      if a.memory != allocation.memory || arena.pages[PageIndex(a)].Free? then arena.pages
      else WithoutChunk(arena.pages, arena.pages[PageIndex(a)].firstInChunk)
    }

    /** `free(a)`: an allocation of other memory is ignored; otherwise the
        chunk holding page `PageIndex(a)` is freed. The source subtracts the
        base offset and indexes the page vector, so `a` must start at or after
        the parent and its page must exist. */
    method Free(a: Allocation)
      requires Valid()
      requires a.memory == allocation.memory ==>
        allocation.offsetInBytes <= a.offsetInBytes && PageIndex(a) < |arena.pages|
      modifies arena
      ensures Valid()
      ensures arena.pages == old(PagesAfterFree(a))
      ensures a.memory != allocation.memory ==>
        arena.pages == old(arena.pages) && arena.allocationCount == old(arena.allocationCount)
      ensures a.memory == allocation.memory && old(arena.pages[PageIndex(a)]).Free? ==>
        arena.pages == old(arena.pages) && arena.allocationCount == old(arena.allocationCount)
      ensures a.memory == allocation.memory && old(arena.pages[PageIndex(a)]).Allocated? ==>
        var first := old(arena.pages[PageIndex(a)]).firstInChunk;
        && arena.pages == WithoutChunk(old(arena.pages), first)
        && arena.allocationCount == old(arena.allocationCount) - 1
    {
      if allocation.memory != a.memory {
        return;
      }
      var relativeOffset := a.offsetInBytes - allocation.offsetInBytes;
      var pageIndex := relativeOffset / pageSize;
      arena.FreeChunk(pageIndex);
    }
  }

  /** `size` bytes from the start of pages `[start, start + count)` stay in that
      chunk, and the chunk stays inside `pages` pages. */
  lemma ChunkBytesInside(pageSize: nat, start: nat, count: nat, pages: nat, size: nat)
    requires start + count <= pages && size <= count * pageSize
    ensures start * pageSize + size <= (start + count) * pageSize <= pages * pageSize
  {
    assert (start + count) * pageSize == start * pageSize + count * pageSize;
    MultiplyIsMonotonic(start + count, pages, pageSize);
  }

  /** An offset inside pages `[start, start + count)` names a page of that
      chunk after integer division by the page size. */
  lemma PageOfOffsetInChunk(relative: nat, pageSize: nat, start: nat, count: nat)
    requires pageSize > 0
    requires start * pageSize <= relative < (start + count) * pageSize
    ensures start <= relative / pageSize < start + count
  {
    var q := relative / pageSize;
    assert relative == q * pageSize + relative % pageSize;
    if q < start {
      MultiplyIsMonotonic(q + 1, start, pageSize);
      assert false;
    } else if q >= start + count {
      MultiplyIsMonotonic(start + count, q, pageSize);
      assert false;
    }
  }

  /** `free` maps a non-empty result of `allocate` back to the chunk that
      produced it, on the shortcut and on the padded path alike: its page index
      is inside `[start, start + count)`. */
  lemma FreeFindsItsChunk(sub: PageSuballocator, a: Allocation, start: nat, count: nat)
    requires sub.pageSize > 0 && a.sizeInBytes > 0 && sub.InChunk(a, start, count)
    ensures sub.allocation.offsetInBytes <= a.offsetInBytes
    ensures start <= sub.PageIndex(a) < start + count
  {
    PageOfOffsetInChunk(a.offsetInBytes - sub.allocation.offsetInBytes, sub.pageSize, start, count);
  }

  /** Results never overlap: a result `allocate` carves from a free run of
      `pages` shares no byte with a result lying in a chunk that is live in
      `pages`, because the two chunks share no page. */
  lemma NewResultMissesLiveChunk(sub: PageSuballocator, pages: seq<Page>, a: Allocation, start: nat, count: nat,
                                 b: Allocation, first: nat, bCount: nat)
    requires count > 0 && FreeRun(pages, start, count) && sub.InChunk(a, start, count)
    requires 0 < bCount && first + bCount <= |pages|
    requires forall i :: first <= i < first + bCount ==> pages[i] == Allocated(first)
    requires sub.InChunk(b, first, bCount)
    ensures a.offsetInBytes + a.sizeInBytes <= b.offsetInBytes || b.offsetInBytes + b.sizeInBytes <= a.offsetInBytes
  {
    // The later of the two first pages would be free and allocated at once.
    var later := if start <= first then first else start;
    ghost var page := if later < |pages| then pages[later] else Free;
    assert start + count <= first || first + bCount <= start;
    if start + count <= first {
      MultiplyIsMonotonic(start + count, first, sub.pageSize);
    } else {
      MultiplyIsMonotonic(first + bCount, start, sub.pageSize);
    }
  }

  /** The shortcut does align its result when the parent's offset and the page
      size are both multiples of the alignment. */
  lemma ShortcutAlignedWhenBaseAndPageAligned(offset: nat, pageSize: nat, alignment: nat, start: nat)
    requires alignment > 0 && offset % alignment == 0 && pageSize % alignment == 0
    ensures (offset + pageSize) % alignment == 0
    ensures (offset + start * pageSize) % alignment == 0
  {
    MultiplesAdd(offset, pageSize, alignment);
    MultipleOfMultiple(start, pageSize, alignment);
    MultiplesAdd(offset, start * pageSize, alignment);
  }
}
