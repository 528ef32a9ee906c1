/** A pool of fixed-size chunks of one memory type
    (`memory_type_pool_allocator.rs`). Each chunk comes from a backing
    allocator and is split into pages by a `PageSuballocator`; requests are
    served from an existing chunk when one fits and from a fresh chunk
    otherwise, and a chunk goes back to the backend as soon as it is empty.
    The backend is the recording `FakeAllocator`. */
module MemoryTypePools {
  import opened Errors
  import opened Requirements
  import opened Allocations
  import opened PageArenas
  import opened PageSuballocators
  import opened Backends

  /** What the pool asks the backend for when it needs a new chunk: the
      request with its size set to the chunk size, alignment 1 and the pool's
      memory type; every other field is the request's. */
  function ChunkRequirements(req: AllocationRequirements, chunkSize: nat, memoryTypeIndex: nat)
    : (c: AllocationRequirements)
    ensures c.sizeInBytes == chunkSize && c.alignment == 1 && c.memoryTypeIndex == memoryTypeIndex
    ensures c.memoryTypeBits == req.memoryTypeBits && c.memoryProperties == req.memoryProperties
    ensures c.prefersDedicatedAllocation == req.prefersDedicatedAllocation
    ensures c.requiresDedicatedAllocation == req.requiresDedicatedAllocation
    ensures c.dedicatedResourceHandle == req.dedicatedResourceHandle
  {
    req.(alignment := 1, sizeInBytes := chunkSize, memoryTypeIndex := memoryTypeIndex)
  }

  /** `pages` holds a run of `count >= 1` free pages. */
  ghost predicate HasRun(pages: seq<Page>, count: nat)
  {
    count >= 1 && exists s: nat :: FreeRun(pages, s, count)
  }

  /** `sub` has a free run long enough for `allocate(size, alignment)`. */
  ghost predicate Fits(sub: PageSuballocator, size: nat, alignment: nat)
    reads sub.arena
  {
    sub.pageSize > 0 && alignment > 0 && HasRun(sub.arena.pages, sub.PagesFor(size, alignment))
  }

  /** `a` lies in the only chunk `sub`'s arena holds, on a page `free(a)`
      finds. */
  ghost predicate SoleAllocation(sub: PageSuballocator, a: Allocation)
    reads sub.arena
  {
    && sub.pageSize > 0 && sub.arena.allocationCount == 1
    && a.memory == sub.allocation.memory
    && sub.allocation.offsetInBytes <= a.offsetInBytes && sub.PageIndex(a) < |sub.arena.pages|
    && sub.arena.pages[sub.PageIndex(a)].Allocated?
  }

  /** `after` is `before` with the first-fit run of `count` pages, the one
      starting at `start`, made into one chunk. */
  ghost predicate TookFirstFit(before: seq<Page>, after: seq<Page>, count: nat, start: nat)
  {
    && FreeRun(before, start, count)
    && (forall s: nat :: s < start ==> !FreeRun(before, s, count))
    && after == WithChunk(before, start, count)
  }

  /** The arena is as it was on entry to the enclosing method. */
  twostate predicate ArenaKept(arena: PageArena)
    reads arena
  {
    arena.pages == old(arena.pages) && arena.allocationCount == old(arena.allocationCount)
  }

  class MemoryTypePoolAllocator {
    const memoryTypeIndex: nat
    const chunkSize: nat
    const pageSize: nat
    const backend: FakeAllocator
    /** Chunk allocation id to the suballocator of that chunk. */
    var pool: map<nat, PageSuballocator>
    /** Which chunk owns each arena. */
    ghost var Owner: map<PageArena, nat>

    ghost function Subs(): set<PageSuballocator>
      reads this
    {
      set k | k in pool :: pool[k]
    }

    ghost function Arenas(): set<PageArena>
      reads this
    {
      set k | k in pool :: pool[k].arena
    }

    /** Every chunk is a whole backend allocation of `chunkSize` bytes of this
        memory type, keyed by its id, split into `pageSize` pages and still in
        use; `Owner` names the chunk of each arena, so no two chunks share an
        arena. */
    ghost predicate Valid()
      reads this, Arenas()
    {
      && pageSize > 0 && chunkSize % pageSize == 0
      && (forall k :: k in pool ==> ChunkValid(k, pool[k]) && pool[k].arena in Owner && Owner[pool[k].arena] == k)
    }

    /** `sub` is a valid chunk of this pool with id `k`. */
    ghost predicate ChunkValid(k: nat, sub: PageSuballocator)
      reads sub.arena
    {
      && sub.Valid()
      && !sub.IsEmpty()
      && sub.pageSize == pageSize
      && sub.allocation.id == k && sub.allocation.parentId.None?
      && sub.allocation.sizeInBytes == chunkSize
      && sub.allocation.memoryTypeIndex == memoryTypeIndex
    }

    /** Every chunk id is below `n`: ids the backend has already handed out
        when `n` is its allocation count. */
    ghost predicate IdsBelow(n: nat)
      reads this
    {
      forall k :: k in pool ==> k < n
    }

    /** A fresh chunk at `offset` can serve `req`: the pages it asks for are
        at least one and at most the chunk's page count. */
    predicate FreshChunkServes(req: AllocationRequirements, offset: nat)
    {
      && pageSize > 0 && req.alignment > 0
      && 0 < PageCount(offset, pageSize, req.sizeInBytes, req.alignment) <= chunkSize / pageSize
    }

    /** Some chunk in the pool can serve `allocate(size, alignment)`. */
    ghost predicate SomeChunkFits(size: nat, alignment: nat)
      reads this, Arenas()
    {
      exists k :: k in pool && Fits(pool[k], size, alignment)
    }

    /** `MemoryTypePoolAllocator::new`: an empty pool. The source only
        debug-asserts that chunks divide into pages, but every chunk it later
        makes goes through `for_allocation`, which panics otherwise. */
    constructor (memoryTypeIndex: nat, chunkSize: nat, pageSize: nat, backend: FakeAllocator)
      requires pageSize > 0 && chunkSize % pageSize == 0
      ensures Valid() && pool == map[]
      ensures this.memoryTypeIndex == memoryTypeIndex && this.chunkSize == chunkSize
      ensures this.pageSize == pageSize && this.backend == backend
    {
      this.memoryTypeIndex := memoryTypeIndex;
      this.chunkSize := chunkSize;
      this.pageSize := pageSize;
      this.backend := backend;
      pool := map[];
      Owner := map[];
    }

    /** The properties every allocation the pool hands out has: it is
        `size` bytes of this memory type inside chunk `parentId`, and on the
        padded path its offset is a multiple of the alignment. */
    ghost predicate ServedFrom(a: Allocation, req: AllocationRequirements)
      requires req.alignment > 0
      reads this
    {
      && a.parentId.Some? && a.parentId.value in pool
      && var sub := pool[a.parentId.value];
      && sub.InParent(a)
      && a.sizeInBytes == req.sizeInBytes
      && a.memoryTypeIndex == memoryTypeIndex
      && (!sub.TakesShortcut(req.alignment) ==> a.offsetInBytes % req.alignment == 0)
    }

    /** Chunk `k`, still in the pool, served `allocate(size, alignment)` as
        its suballocator does: the least run of the pages the request needs
        became one chunk of its arena, which counts one more allocation, and
        the result's `size` bytes at `offset` lie inside that run. */
    twostate predicate ChunkServed(k: nat, size: nat, alignment: nat, offset: nat)
      reads this, Arenas()
    {
      && k in pool && k in old(pool) && pool[k] == old(pool[k])
      && pool[k].pageSize > 0 && alignment > 0
      && var arena, count := pool[k].arena, pool[k].PagesFor(size, alignment);
      && count > 0
      && (exists s: nat ::
            TookFirstFit(old(arena.pages), arena.pages, count, s) && pool[k].BytesInChunk(offset, size, s, count))
      && arena.allocationCount == old(arena.allocationCount) + 1
    }

    /** The new chunk `id` served `allocate(size, alignment)`: its pages,
        all free when it was made, had their first run taken, the one at page
        0, and the result's `size` bytes at `offset` lie inside that run. */
    ghost predicate FreshChunkServed(id: nat, size: nat, alignment: nat, offset: nat)
      reads this, Arenas()
    {
      && id in pool && pageSize > 0 && pool[id].pageSize > 0 && alignment > 0
      && var sub, count := pool[id], pool[id].PagesFor(size, alignment);
      && count > 0
      && TookFirstFit(seq(chunkSize / pageSize, _ => Page.Free), sub.arena.pages, count, 0)
      && sub.BytesInChunk(offset, size, 0, count)
    }

    /** Offers the request to chunk `k` alone. */
    method AllocateFromChunk(k: nat, req: AllocationRequirements) returns (r: Result<Allocation>)
      requires Valid() && k in pool && req.alignment > 0
      modifies pool[k].arena
      ensures Valid()
      ensures pool == old(pool) && Owner == old(Owner) && pool[k].pageSize > 0
      ensures r.Err? <==> !HasRun(old(pool[k].arena.pages), pool[k].PagesFor(req.sizeInBytes, req.alignment))
      ensures r.Err? ==> unchanged(pool[k].arena)
      ensures r.Ok? ==> ServedFrom(r.value, req) && r.value.parentId == Some(k)
      ensures r.Ok? ==> ChunkServed(k, req.sizeInBytes, req.alignment, r.value.offsetInBytes)
    {
      var sub := pool[k];
      assert ChunkValid(k, sub);
      ghost var start;
      r, start := sub.Allocate(req.sizeInBytes, req.alignment);
      assert ChunkValid(k, sub);
      if r.Ok? {
        ghost var count := sub.PagesFor(req.sizeInBytes, req.alignment);
        assert TookFirstFit(old(sub.arena.pages), sub.arena.pages, count, start);
        assert sub.BytesInChunk(r.value.offsetInBytes, req.sizeInBytes, start, count);
      }
    }

    /** The `values_mut()` loop: offers the request to the existing chunks one
        after another, in an order left open, and stops at the first that
        serves it. Only that chunk's arena changes. */
    method TryExistingChunks(req: AllocationRequirements) returns (r: Option<Allocation>)
      requires Valid() && req.alignment > 0
      modifies Arenas()
      ensures Valid()
      ensures r.None? <==> !old(SomeChunkFits(req.sizeInBytes, req.alignment))
      ensures r.None? ==> forall k :: k in pool ==> ArenaKept(pool[k].arena)
      ensures r.Some? ==> ServedFrom(r.value, req)
      ensures r.Some? ==>
        r.value.parentId.Some? && ServedByExisting(req.sizeInBytes, req.alignment, r.value.parentId.value, r.value.offsetInBytes)
    {
      var keys := pool.Keys;
      while keys != {}
        invariant keys <= pool.Keys && pool == old(pool) && Owner == old(Owner)
        invariant Valid()
        invariant forall k :: k in pool ==> ArenaKept(pool[k].arena)
        invariant forall k :: k in pool && k !in keys ==> !old(Fits(pool[k], req.sizeInBytes, req.alignment))
        decreases keys
      {
        var k :| k in keys;
        ghost var before := pool[k].arena.pages;
        var attempt := AllocateFromChunk(k, req);
        ghost var fits := HasRun(before, pool[k].PagesFor(req.sizeInBytes, req.alignment));
        assert fits == old(Fits(pool[k], req.sizeInBytes, req.alignment));
        if attempt.Ok? {
          forall j | j in pool && j != k ensures ArenaKept(pool[j].arena) {
            assert Owner[pool[j].arena] != Owner[pool[k].arena];
          }
          return Some(attempt.value);
        }
        keys := keys - {k};
      }
      return None;
    }
  
    /** The request reaches the chunks: it names this pool's memory type and
        its aligned size is below the chunk size. */
    predicate Admits(req: AllocationRequirements)
    {
      req.memoryTypeIndex == memoryTypeIndex && AlignedSize(req) < chunkSize
    }

    /** `allocate`. A request for another memory type, or one whose aligned
        size does not fit below the chunk size, is refused with nothing
        changed. Otherwise an existing chunk that fits serves it and the
        backend is not called; when none fits, one chunk of `chunkSize` bytes
        is requested from the backend, and it joins the pool under its id if
        it serves the request and goes straight back otherwise. Either way the
        number of live backend allocations minus the number of chunks is
        kept. */
    method Allocate(req: AllocationRequirements) returns (r: Result<Allocation>)
      requires Valid() && backend.Valid() && IdsBelow(backend.allocationCount)
      requires Admits(req) ==> req.alignment > 0
      modifies this, backend, Arenas()
      ensures Valid() && backend.Valid() && IdsBelow(backend.allocationCount)
      ensures Owner.Keys >= old(Owner.Keys)
      ensures backend.activeAllocations - |pool| == old(backend.activeAllocations - |pool|)
      ensures backend.allocationCount >= old(backend.allocationCount)
      ensures req.memoryTypeIndex != memoryTypeIndex ==>
        r == Err(RuntimeError(MemoryTypeIndexMismatch)) && pool == old(pool)
        && backend.allocations == old(backend.allocations)
      ensures req.memoryTypeIndex == memoryTypeIndex && !Admits(req) ==>
        r == Err(RuntimeError(ChunkTooSmall(req.sizeInBytes))) && pool == old(pool)
        && backend.allocations == old(backend.allocations)
      ensures Admits(req) && old(SomeChunkFits(req.sizeInBytes, req.alignment)) ==>
        && r.Ok? && backend.allocations == old(backend.allocations) && r.value.parentId.Some?
        && ServedByExisting(req.sizeInBytes, req.alignment, r.value.parentId.value, r.value.offsetInBytes)
      ensures !(Admits(req) && old(SomeChunkFits(req.sizeInBytes, req.alignment))) ==> OldChunksKept()
      ensures Admits(req) && !old(SomeChunkFits(req.sizeInBytes, req.alignment)) ==>
        && backend.allocations == old(backend.allocations) + [ChunkRequirements(req, chunkSize, memoryTypeIndex)]
        && (r.Ok? <==> old(FreshChunkServes(req, backend.offset)))
        && (r.Ok? ==> pool.Keys == old(pool.Keys) + {old(backend.allocationCount)}
                      && r.value.parentId == Some(old(backend.allocationCount))
                      && FreshChunkServed(old(backend.allocationCount), req.sizeInBytes, req.alignment,
                                          r.value.offsetInBytes))
        && (r.Err? ==> pool == old(pool) && r.error == RuntimeError(NoContiguousChunk))
      ensures Admits(req) && !old(SomeChunkFits(req.sizeInBytes, req.alignment)) && r.Ok? && req.sizeInBytes > 0 ==>
        SoleAllocation(pool[old(backend.allocationCount)], r.value)
      ensures r.Ok? ==> Admits(req) && ServedFrom(r.value, req)
      ensures pool == old(pool)
        || (NewChunkAdded(old(pool), old(backend.allocationCount))
            && fresh(pool[old(backend.allocationCount)].arena))
    {
      if memoryTypeIndex != req.memoryTypeIndex {
        return Err(RuntimeError(MemoryTypeIndexMismatch));
      }
      if AlignedSize(req) >= chunkSize {
        return Err(RuntimeError(ChunkTooSmall(req.sizeInBytes)));
      }
      r := AllocateAdmitted(req);
    }

    /** `allocate` for a request that reaches the chunks: the existing chunks
        first, then a new one. */
    method AllocateAdmitted(req: AllocationRequirements) returns (r: Result<Allocation>)
      requires Valid() && backend.Valid() && IdsBelow(backend.allocationCount)
      requires Admits(req) && req.alignment > 0
      modifies this, backend, Arenas()
      ensures Valid() && backend.Valid() && IdsBelow(backend.allocationCount)
      ensures Owner.Keys >= old(Owner.Keys)
      ensures backend.activeAllocations - |pool| == old(backend.activeAllocations - |pool|)
      ensures backend.allocationCount >= old(backend.allocationCount)
      ensures old(SomeChunkFits(req.sizeInBytes, req.alignment)) ==>
        && r.Ok? && backend.allocations == old(backend.allocations) && r.value.parentId.Some?
        && ServedByExisting(req.sizeInBytes, req.alignment, r.value.parentId.value, r.value.offsetInBytes)
      ensures !old(SomeChunkFits(req.sizeInBytes, req.alignment)) ==>
        && OldChunksKept()
        && backend.allocations == old(backend.allocations) + [ChunkRequirements(req, chunkSize, memoryTypeIndex)]
        && (r.Ok? <==> old(FreshChunkServes(req, backend.offset)))
        && (r.Ok? ==> pool.Keys == old(pool.Keys) + {old(backend.allocationCount)}
                      && r.value.parentId == Some(old(backend.allocationCount))
                      && FreshChunkServed(old(backend.allocationCount), req.sizeInBytes, req.alignment,
                                          r.value.offsetInBytes))
        && (r.Err? ==> pool == old(pool) && r.error == RuntimeError(NoContiguousChunk))
      ensures !old(SomeChunkFits(req.sizeInBytes, req.alignment)) && r.Ok? && req.sizeInBytes > 0 ==>
        SoleAllocation(pool[old(backend.allocationCount)], r.value)
      ensures r.Ok? ==> ServedFrom(r.value, req)
      ensures pool == old(pool)
        || (NewChunkAdded(old(pool), old(backend.allocationCount))
            && fresh(pool[old(backend.allocationCount)].arena))
    {
      var existing := TryExistingChunks(req);
      if existing.Some? {
        return Ok(existing.value);
      }
      assert pool == old(pool) && backend.allocationCount == old(backend.allocationCount);
      assert backend.offset == old(backend.offset) && backend.allocations == old(backend.allocations);
      r := AllocateFromNewChunk(req);
    }

    /** How `allocate(size, alignment)` ends when an existing chunk fits:
        chunk `id` served it as `ChunkServed` says, and the pool and every
        other chunk's arena are as they were. */
    twostate predicate ServedByExisting(size: nat, alignment: nat, id: nat, offset: nat)
      reads this, Arenas()
    {
      && pool == old(pool) && ChunkServed(id, size, alignment, offset)
      && forall j :: j in pool && j != id ==> ArenaKept(pool[j].arena)
    }

    /** Results never overlap: the result an existing chunk served shares no
        byte with any allocation lying in a chunk that was live in that
        chunk's arena before the call. */
    twostate lemma ExistingResultMissesLiveChunk(k: nat, size: nat, alignment: nat, offset: nat,
                                                 b: Allocation, first: nat, bCount: nat)
      requires ChunkServed(k, size, alignment, offset)
      requires 0 < bCount && first + bCount <= |old(pool[k].arena.pages)|
      requires forall i :: first <= i < first + bCount ==> old(pool[k].arena.pages)[i] == Allocated(first)
      requires pool[k].InChunk(b, first, bCount)
      ensures offset + size <= b.offsetInBytes || b.offsetInBytes + b.sizeInBytes <= offset
    {
      var sub, count := pool[k], pool[k].PagesFor(size, alignment);
      var s: nat :| TookFirstFit(old(sub.arena.pages), sub.arena.pages, count, s)
        && sub.BytesInChunk(offset, size, s, count);
      var a := b.(offsetInBytes := offset, sizeInBytes := size);
      NewResultMissesLiveChunk(sub, old(sub.arena.pages), a, s, count, b, first, bCount);
    }

    /** Every chunk the pool held on entry is still there with its arena as
        it was. */
    twostate predicate OldChunksKept()
      reads this, Arenas()
    {
      forall k :: k in old(pool) ==> k in pool && pool[k] == old(pool[k]) && ArenaKept(pool[k].arena)
    }

    /** `pool` is `before` with one chunk `id` added whose arena is new. */
    ghost predicate NewChunkAdded(before: map<nat, PageSuballocator>, id: nat)
      reads this
    {
      id !in before && id in pool && pool == before[id := pool[id]]
    }

    /** The second half of `allocate`: a fresh chunk from the backend joins
        the pool under its id when it serves the request, which it does
        exactly when the request's pages fit in a chunk. */
    method AllocateFromNewChunk(req: AllocationRequirements) returns (r: Result<Allocation>)
      requires Valid() && backend.Valid() && IdsBelow(backend.allocationCount)
      requires Admits(req) && req.alignment > 0
      modifies this, backend
      ensures Valid() && backend.Valid() && IdsBelow(backend.allocationCount)
      ensures Owner.Keys >= old(Owner.Keys)
      ensures backend.activeAllocations - |pool| == old(backend.activeAllocations - |pool|)
      ensures backend.allocationCount == old(backend.allocationCount) + 1
      ensures backend.allocations == old(backend.allocations) + [ChunkRequirements(req, chunkSize, memoryTypeIndex)]
      ensures r.Ok? ==>
        && NewChunkAdded(old(pool), old(backend.allocationCount))
        && fresh(pool[old(backend.allocationCount)].arena)
        && pool.Keys == old(pool.Keys) + {old(backend.allocationCount)}
        && r.value.parentId == Some(old(backend.allocationCount)) && ServedFrom(r.value, req)
      ensures r.Err? ==> pool == old(pool) && r.error == RuntimeError(NoContiguousChunk)
      ensures r.Ok? <==> old(FreshChunkServes(req, backend.offset))
      ensures r.Ok? && req.sizeInBytes > 0 ==> SoleAllocation(pool[old(backend.allocationCount)], r.value)
      ensures forall k :: k in old(pool) ==> k in pool && pool[k] == old(pool[k])
      ensures r.Ok? ==>
        FreshChunkServed(old(backend.allocationCount), req.sizeInBytes, req.alignment, r.value.offsetInBytes)
    {
      var id := backend.allocationCount;
      var sub;
      r, sub := OpenChunk(backend, req, chunkSize, pageSize, memoryTypeIndex);
      if r.Ok? {
        JoinChunk(id, sub);
      }
    }

    /** `AddChunk` for a chunk whose id is new: the pool gains exactly that
        key and keeps every other entry. */
    method JoinChunk(id: nat, sub: PageSuballocator)
      requires Valid() && id !in pool && sub.arena !in Owner && ChunkValid(id, sub)
      modifies this
      ensures Valid() && Owner.Keys >= old(Owner.Keys)
      ensures NewChunkAdded(old(pool), id) && pool[id] == sub
      ensures pool.Keys == old(pool.Keys) + {id} && |pool| == |old(pool)| + 1
      ensures forall k :: k in old(pool) ==> k in pool && pool[k] == old(pool[k])
      ensures old(IdsBelow(id)) ==> IdsBelow(id + 1)
    {
      InsertedChunk(pool, id, sub);
      AddChunk(id, sub);
    }

    /** `pool.insert(id, sub)` for a chunk id not yet in the pool: the pool
        stays valid. */
    method AddChunk(id: nat, sub: PageSuballocator)
      requires Valid() && id !in pool && sub.arena !in Owner && ChunkValid(id, sub)
      modifies this
      ensures Valid()
      ensures pool == old(pool)[id := sub] && Owner == old(Owner)[sub.arena := id]
    {
      ghost var before, owners := pool, Owner;
      pool := pool[id := sub];
      Owner := Owner[sub.arena := id];
      forall k | k in pool
        ensures ChunkValid(k, pool[k]) && pool[k].arena in Owner && Owner[pool[k].arena] == k
      {
        if k != id {
          assert pool[k] == before[k] && ChunkValid(k, before[k]);
          assert Owner[pool[k].arena] == owners[before[k].arena];
        }
      }
    }

    /** What `free` demands of its argument: it comes from a chunk of this
        pool, and when it names that chunk's memory its page exists. */
    ghost predicate Frees(a: Allocation)
      reads this, Arenas()
    {
      && Valid() && a.parentId.Some? && a.parentId.value in pool
      && var sub := pool[a.parentId.value];
      a.memory == sub.allocation.memory ==>
        sub.allocation.offsetInBytes <= a.offsetInBytes && sub.PageIndex(a) < |sub.arena.pages|
    }

    /** `free`: the allocation goes back to its chunk's suballocator; a chunk
        left empty leaves the pool and is freed to the backend, so the number
        of live backend allocations minus the number of chunks is kept. */
    method Free(a: Allocation)
      requires Frees(a) && |pool| <= backend.activeAllocations
      modifies this, backend, pool[a.parentId.value].arena
      ensures Valid() && Owner == old(Owner)
      ensures backend.activeAllocations - |pool| == old(backend.activeAllocations - |pool|)
      ensures backend.allocations == old(backend.allocations)
      ensures backend.allocationCount == old(backend.allocationCount) && backend.offset == old(backend.offset)
      ensures old(pool[a.parentId.value]).arena.pages == old(pool[a.parentId.value].PagesAfterFree(a))
      ensures a.parentId.value in pool <==> !old(pool[a.parentId.value]).IsEmpty()
      ensures a.parentId.value in pool ==> pool == old(pool)
      ensures a.parentId.value !in pool ==> pool == old(pool) - {a.parentId.value}
      ensures forall j :: j in pool ==> j in old(pool) && pool[j] == old(pool[j])
      ensures a.parentId.value !in pool ==> |pool| == |old(pool)| - 1
      ensures old(pool[a.parentId.value]).Valid()
    {
      var k := a.parentId.value;
      var sub := pool[k];
      assert ChunkValid(k, sub);
      sub.Free(a);
      if sub.IsEmpty() {
        DropChunk(k);
        assert |pool| == |old(pool)| - 1;
      }
    }

    /** `pool.remove(key)` and `free(release_allocation())` for a chunk that
        has just become empty; every other chunk is valid. */
    method DropChunk(k: nat)
      requires k in pool && |pool| <= backend.activeAllocations
      requires pageSize > 0 && chunkSize % pageSize == 0
      requires forall j :: j in pool && j != k ==>
        ChunkValid(j, pool[j]) && pool[j].arena in Owner && Owner[pool[j].arena] == j
      modifies this, backend
      ensures Valid() && Owner == old(Owner)
      ensures pool == old(pool) - {k}
      ensures backend.activeAllocations == old(backend.activeAllocations) - 1
      ensures backend.allocations == old(backend.allocations)
      ensures backend.allocationCount == old(backend.allocationCount) && backend.offset == old(backend.offset)
    {
      var sub := pool[k];
      pool := pool - {k};
      backend.Free(sub.ReleaseAllocation());
    }
  }

  /** The chunk path of `allocate` up to the pool update: the backend hands
      out a chunk of `chunkSize` bytes, a `PageSuballocator` splits it into
      pages and serves the request; when it cannot, the chunk is released and
      freed, so the backend ends with as many live allocations as before. */
  method OpenChunk(backend: FakeAllocator, req: AllocationRequirements, chunkSize: nat, pageSize: nat,
                   memoryTypeIndex: nat)
    returns (r: Result<Allocation>, sub: PageSuballocator)
    requires backend.Valid() && pageSize > 0 && chunkSize % pageSize == 0 && req.alignment > 0
    modifies backend
    ensures backend.Valid()
    ensures backend.allocations == old(backend.allocations) + [ChunkRequirements(req, chunkSize, memoryTypeIndex)]
    ensures backend.allocationCount == old(backend.allocationCount) + 1
    ensures fresh(sub) && fresh(sub.arena)
    ensures sub.allocation.id == old(backend.allocationCount) && sub.allocation.parentId.None?
    ensures sub.allocation.sizeInBytes == chunkSize && sub.allocation.memoryTypeIndex == memoryTypeIndex
    ensures sub.pageSize == pageSize
    ensures r.Ok? ==>
      && backend.activeAllocations == old(backend.activeAllocations) + 1
      && sub.Valid() && !sub.IsEmpty() && sub.InParent(r.value)
      && r.value.parentId == Some(sub.allocation.id)
      && r.value.sizeInBytes == req.sizeInBytes && r.value.memoryTypeIndex == memoryTypeIndex
      && (!sub.TakesShortcut(req.alignment) ==> r.value.offsetInBytes % req.alignment == 0)
    ensures r.Err? ==>
      backend.activeAllocations == old(backend.activeAllocations) && r.error == RuntimeError(NoContiguousChunk)
    ensures r.Ok? <==> 0 < PageCount(old(backend.offset), pageSize, req.sizeInBytes, req.alignment) <= chunkSize / pageSize
    ensures r.Ok? && req.sizeInBytes > 0 ==> SoleAllocation(sub, r.value)
    ensures r.Ok? ==> var k := sub.PagesFor(req.sizeInBytes, req.alignment);
      && k > 0 && TookFirstFit(seq(chunkSize / pageSize, _ => Page.Free), sub.arena.pages, k, 0)
      && sub.InChunk(r.value, 0, k)
  {
    var chunkResult := backend.Allocate(ChunkRequirements(req, chunkSize, memoryTypeIndex));
    var chunk := chunkResult.value;
    sub := new PageSuballocator.ForAllocation(chunk, pageSize);
    ghost var pages := sub.arena.pages;
    ghost var k := sub.PagesFor(req.sizeInBytes, req.alignment);
    if 0 < k <= |pages| {
      assert FreeRun(pages, 0, k);
    }
    ghost var start;
    r, start := sub.Allocate(req.sizeInBytes, req.alignment);
    if r.Err? {
      backend.Free(sub.ReleaseAllocation());
    } else if req.sizeInBytes > 0 {
      FreeFindsItsChunk(sub, r.value, start, k);
    }
    if r.Ok? {
      assert start == 0 && TookFirstFit(pages, sub.arena.pages, k, 0);
    }
  }

  /** Adding chunk `id` to a pool without it adds exactly that key and keeps
      every other entry. */
  lemma InsertedChunk(before: map<nat, PageSuballocator>, id: nat, sub: PageSuballocator)
    requires id !in before
    ensures before[id := sub].Keys == before.Keys + {id} && |before[id := sub]| == |before| + 1
    ensures forall k :: k in before ==> k in before[id := sub] && before[id := sub][k] == before[k]
  {
  }

  /** Every non-empty allocation the pool serves can be handed back to `free`:
      it names a chunk of the pool, and its page exists in that chunk. */
  lemma ServedAllocationIsFreeable(p: MemoryTypePoolAllocator, a: Allocation, req: AllocationRequirements)
    requires p.Valid() && req.alignment > 0 && p.ServedFrom(a, req) && a.sizeInBytes > 0
    ensures p.Frees(a)
  {
    var sub := p.pool[a.parentId.value];
    assert p.ChunkValid(a.parentId.value, sub);
    FreeFindsItsChunk(sub, a, 0, |sub.arena.pages|);
  }
}
