/** The per-memory-type router (`pool_allocator.rs`): one
    `MemoryTypePoolAllocator` for every memory type of the device, indexed by
    its memory type index, all drawing their chunks from one shared backend.
    A request goes to the pool of its memory type, and so does a free. */
module PoolAllocators {
  import opened Errors
  import opened Requirements
  import opened Allocations
  import opened Backends
  import opened MemoryTypePools

  function Sum(s: seq<nat>): (total: nat)
    ensures |s| == 0 ==> total == 0
  {
    if |s| == 0 then 0 else Sum(s[..|s| - 1]) + s[|s| - 1]
  }

  /** Replacing one element of a sequence changes its sum by the difference. */
  lemma {:induction false} SumUpdate(s: seq<nat>, i: nat, v: nat)
    requires i < |s|
    ensures Sum(s[i := v]) + s[i] == Sum(s) + v
    decreases |s|
  {
    var t := s[i := v];
    assert t[..|t| - 1] == if i == |s| - 1 then s[..|s| - 1] else s[..|s| - 1][i := v];
    if i < |s| - 1 {
      SumUpdate(s[..|s| - 1], i, v);
    }
  }

  /** No element exceeds the sum. */
  lemma {:induction false} ElementBelowSum(s: seq<nat>, i: nat)
    requires i < |s|
    ensures s[i] <= Sum(s)
    decreases |s|
  {
    if i < |s| - 1 {
      ElementBelowSum(s[..|s| - 1], i);
    }
  }

  /** Every element of a sequence of zeros sums to zero. */
  lemma {:induction false} ZerosSumToZero(s: seq<nat>)
    requires forall i :: 0 <= i < |s| ==> s[i] == 0
    ensures Sum(s) == 0
    decreases |s|
  {
    if |s| > 0 {
      ZerosSumToZero(s[..|s| - 1]);
    }
  }

  /** Two memory type indices: the pool a call changed and another one. */
  datatype PoolPair = PoolPair(changed: nat, other: nat)

  class PoolAllocator {
    /** The backend shared by every pool. */
    const backend: FakeAllocator
    /** `typedPools[i]` is the pool of memory type `i`. */
    const typedPools: seq<MemoryTypePoolAllocator>
    /** The live backend allocations that are no pool's chunk: those the
        backend already had when the router was made. */
    ghost const baseline: nat
    /** The arenas of every pool. */
    ghost function AllArenas(): set<object>
      reads typedPools
    {
      set i, o | 0 <= i < |typedPools| && o in typedPools[i].Arenas() :: o
    }

    /** The number of chunks each pool holds, by memory type. */
    ghost function ChunkCounts(): (counts: seq<nat>)
      reads typedPools
      ensures |counts| == |typedPools|
      ensures forall i :: 0 <= i < |typedPools| ==> counts[i] == |typedPools[i].pool|
    {
      seq(|typedPools|, i requires 0 <= i < |typedPools| reads typedPools => |typedPools[i].pool|)
    }

    /** Pool `i` serves memory type `i` from the shared backend and is
        valid. */
    ghost predicate PoolValid(i: nat)
      requires i < |typedPools|
      reads typedPools[i], typedPools[i].Arenas()
    {
      var p := typedPools[i];
      p.memoryTypeIndex == i && p.backend == backend && p.Valid()
    }

    /** Every pool is valid and has issued only chunk ids the backend has
        handed out; no two pools share a chunk or an arena; every chunk of
        every pool is one live backend allocation, and the only others are
        the `baseline` ones. */
    ghost predicate Valid()
      reads backend, typedPools, AllArenas()
    {
      && backend.Valid()
      && (forall i :: 0 <= i < |typedPools| ==>
            PoolValid(i) && typedPools[i].IdsBelow(backend.allocationCount))
      && (forall i, j :: 0 <= i < |typedPools| && 0 <= j < |typedPools| && i != j ==>
            typedPools[i].Arenas() !! typedPools[j].Arenas()
            && typedPools[i].pool.Keys !! typedPools[j].pool.Keys)
      && backend.activeAllocations == baseline + Sum(ChunkCounts())
    }

    /** `PoolAllocator::new`: one empty pool per memory type, in index order,
        all over `backend`. */
    constructor (types: seq<MemoryType>, chunkSize: nat, pageSize: nat, backend: FakeAllocator)
      requires pageSize > 0 && chunkSize % pageSize == 0
      requires backend.Valid()
      ensures Valid() && this.backend == backend && |typedPools| == |types|
      ensures baseline == backend.activeAllocations
      ensures forall i :: 0 <= i < |typedPools| ==>
        typedPools[i].pool == map[] && typedPools[i].memoryTypeIndex == i
        && typedPools[i].chunkSize == chunkSize && typedPools[i].pageSize == pageSize
    {
      var pools: seq<MemoryTypePoolAllocator> := [];
      for n := 0 to |types|
        invariant |pools| == n
        invariant forall i :: 0 <= i < n ==>
          && pools[i].pool == map[] && pools[i].Valid()
          && pools[i].memoryTypeIndex == i && pools[i].backend == backend
          && pools[i].chunkSize == chunkSize && pools[i].pageSize == pageSize
      {
        var p := new MemoryTypePoolAllocator(n, chunkSize, pageSize, backend);
        pools := pools + [p];
      }
      this.backend := backend;
      typedPools := pools;
      baseline := backend.activeAllocations;
      new;
      forall i | 0 <= i < |typedPools|
        ensures PoolValid(i) && typedPools[i].IdsBelow(backend.allocationCount)
        ensures typedPools[i].Arenas() == {} && typedPools[i].pool.Keys == {}
      {
      }
      ZerosSumToZero(ChunkCounts());
    }

    /** What a call into pool `t` may change: the backend, the pool and the
        arenas the pool holds. */
    ghost function Touched(t: nat): set<object>
      requires t < |typedPools|
      reads typedPools[t]
    {
      {backend, typedPools[t]} + typedPools[t].Arenas()
    }

    /** A call into pool `e.changed` that changed only what
        `Touched(e.changed)` names keeps pool `e.other`: its chunks, its
        arenas and its validity, and its arenas are not among those pool
        `e.changed` held. */
    twostate lemma OtherPoolKept(e: PoolPair)
      requires e.changed < |typedPools| && e.other < |typedPools| && e.other != e.changed
      requires old(PoolValid(e.changed)) && old(PoolValid(e.other))
      requires old(typedPools[e.other].Arenas() !! typedPools[e.changed].Arenas())
      requires forall o: object :: old(allocated(o)) && o !in old(Touched(e.changed)) ==> unchanged(o)
      ensures typedPools[e.other].pool == old(typedPools[e.other].pool)
      ensures typedPools[e.other].Arenas() == old(typedPools[e.other].Arenas())
      ensures typedPools[e.other].Arenas() !! old(typedPools[e.changed].Arenas())
      ensures PoolValid(e.other)
    {
      var t, q := e.changed, typedPools[e.other];
      assert q !in old(Touched(t));
      forall o | o in q.Arenas() ensures unchanged(o) {
        assert o !in old(Touched(t));
      }
    }

    /** `OtherPoolKept` for every pool other than `t`. */
    twostate lemma OtherPoolsKept(t: nat)
      requires t < |typedPools| && old(Valid())
      requires forall o: object :: old(allocated(o)) && o !in old(Touched(t)) ==> unchanged(o)
      ensures forall i :: 0 <= i < |typedPools| && i != t ==>
        && typedPools[i].pool == old(typedPools[i].pool)
        && typedPools[i].Arenas() == old(typedPools[i].Arenas())
        && typedPools[i].Arenas() !! old(typedPools[t].Arenas())
        && PoolValid(i) && typedPools[i].IdsBelow(old(backend.allocationCount))
    {
      forall i | 0 <= i < |typedPools| && i != t
        ensures typedPools[i].pool == old(typedPools[i].pool)
        ensures typedPools[i].Arenas() == old(typedPools[i].Arenas())
        ensures typedPools[i].Arenas() !! old(typedPools[t].Arenas())
        ensures PoolValid(i) && typedPools[i].IdsBelow(old(backend.allocationCount))
      {
        OtherPoolKept(PoolPair(t, i));
      }
    }

    /** Pool `t` kept every chunk it still has, and any chunk it gained has
        the id the backend was about to hand out and an arena that did not
        exist before. */
    twostate predicate GrewByNewChunk(t: nat)
      requires t < |typedPools|
      reads typedPools[t], backend
    {
      forall k :: k in typedPools[t].pool ==>
        (k in old(typedPools[t].pool) && typedPools[t].pool[k] == old(typedPools[t].pool[k]))
        || (k == old(backend.allocationCount) && fresh(typedPools[t].pool[k].arena))
    }

    /** After such a call no two pools share an arena or a chunk id: a
        chunk pool `t` gained has a new arena and an id above every other
        pool's. */
    twostate lemma PoolsStayDisjoint(t: nat)
      requires t < |typedPools| && old(Valid())
      requires forall o: object :: old(allocated(o)) && o !in old(Touched(t)) ==> unchanged(o)
      requires GrewByNewChunk(t)
      ensures forall i, j :: 0 <= i < |typedPools| && 0 <= j < |typedPools| && i != j ==>
        typedPools[i].Arenas() !! typedPools[j].Arenas()
        && typedPools[i].pool.Keys !! typedPools[j].pool.Keys
    {
      OtherPoolsKept(t);
      var n := |typedPools|;
      var p := typedPools[t];
      forall i, j | 0 <= i < n && 0 <= j < n && i != j
        ensures typedPools[i].Arenas() !! typedPools[j].Arenas()
        ensures typedPools[i].pool.Keys !! typedPools[j].pool.Keys
      {
        if i != t && j != t {
          assert old(typedPools[i].Arenas() !! typedPools[j].Arenas());
        } else {
          var q := if i == t then typedPools[j] else typedPools[i];
          assert old(p.Arenas() !! q.Arenas());
          assert old(p.pool.Keys !! q.pool.Keys);
          assert p.Arenas() !! q.Arenas() by {
            forall o | o in p.Arenas() ensures o !in q.Arenas() {
              var k :| k in p.pool && p.pool[k].arena == o;
            }
          }
        }
      }
    }

    /** The invariant survives a call into pool `t` that changed only the
        backend, pool `t` and the arenas pool `t` held, kept pool `t` valid
        and changed the number of live backend allocations by exactly the
        change in its chunk count. */
    twostate lemma PoolsStayValid(t: nat)
      requires t < |typedPools| && old(Valid())
      requires forall o: object :: old(allocated(o)) && o !in old(Touched(t)) ==> unchanged(o)
      requires backend.Valid() && backend.allocationCount >= old(backend.allocationCount)
      requires PoolValid(t) && typedPools[t].IdsBelow(backend.allocationCount)
      requires backend.activeAllocations - |typedPools[t].pool|
        == old(backend.activeAllocations - |typedPools[t].pool|)
      requires GrewByNewChunk(t)
      ensures Valid()
    {
      OtherPoolsKept(t);
      PoolsStayDisjoint(t);
      forall i | 0 <= i < |typedPools|
        ensures PoolValid(i) && typedPools[i].IdsBelow(backend.allocationCount)
      {
        if i != t {
          assert typedPools[i].IdsBelow(old(backend.allocationCount));
        }
      }
      var p := typedPools[t];
      ghost var counts := old(ChunkCounts());
      assert ChunkCounts() == counts[t := |p.pool|];
      SumUpdate(counts, t, |p.pool|);
    }

    /** `PoolsStayValid` and `OtherPoolsKept` for a call that only removed
        chunks from pool `t`, as `free` does. */
    twostate lemma PoolsStayValidAfterShrink(t: nat)
      requires t < |typedPools| && old(Valid())
      requires forall o: object :: old(allocated(o)) && o !in old(Touched(t)) ==> unchanged(o)
      requires backend.Valid() && backend.allocationCount == old(backend.allocationCount)
      requires typedPools[t].Valid()
      requires backend.activeAllocations - |typedPools[t].pool|
        == old(backend.activeAllocations - |typedPools[t].pool|)
      requires forall j :: j in typedPools[t].pool ==>
        j in old(typedPools[t].pool) && typedPools[t].pool[j] == old(typedPools[t].pool[j])
      ensures Valid()
      ensures forall i :: 0 <= i < |typedPools| && i != t ==> typedPools[i].pool == old(typedPools[i].pool)
    {
      assert GrewByNewChunk(t);
      assert typedPools[t].IdsBelow(backend.allocationCount);
      PoolsStayValid(t);
      OtherPoolsKept(t);
    }

    /** `allocate`: the request goes to the pool of its memory type (an
        unknown memory type is a panic in the source, hence the
        precondition). Every other pool keeps its chunks, and the chosen pool
        answers as `MemoryTypePoolAllocator.Allocate` does: from an existing
        chunk when one fits, from one new backend chunk otherwise. */
    method Allocate(req: AllocationRequirements) returns (r: Result<Allocation>)
      requires Valid() && req.memoryTypeIndex < |typedPools|
      requires typedPools[req.memoryTypeIndex].Admits(req) ==> req.alignment > 0
      modifies backend, typedPools[req.memoryTypeIndex], typedPools[req.memoryTypeIndex].Arenas()
      ensures Valid()
      ensures forall i :: 0 <= i < |typedPools| && i != req.memoryTypeIndex ==>
        typedPools[i].pool == old(typedPools[i].pool)
      ensures !typedPools[req.memoryTypeIndex].Admits(req) ==>
        r == Err(RuntimeError(ChunkTooSmall(req.sizeInBytes)))
        && backend.allocations == old(backend.allocations)
      ensures r.Ok? ==>
        r.value.memoryTypeIndex == req.memoryTypeIndex && typedPools[req.memoryTypeIndex].ServedFrom(r.value, req)
      ensures var p := typedPools[req.memoryTypeIndex];
        p.Admits(req) && old(p.SomeChunkFits(req.sizeInBytes, req.alignment)) ==>
        && r.Ok? && backend.allocations == old(backend.allocations) && r.value.parentId.Some?
        && p.ServedByExisting(req.sizeInBytes, req.alignment, r.value.parentId.value, r.value.offsetInBytes)
      ensures var p := typedPools[req.memoryTypeIndex];
        !(p.Admits(req) && old(p.SomeChunkFits(req.sizeInBytes, req.alignment))) ==> p.OldChunksKept()
      ensures var p := typedPools[req.memoryTypeIndex];
        p.Admits(req) && !old(p.SomeChunkFits(req.sizeInBytes, req.alignment)) ==>
        && backend.allocations == old(backend.allocations) + [ChunkRequirements(req, p.chunkSize, req.memoryTypeIndex)]
        && (r.Ok? <==> old(p.FreshChunkServes(req, backend.offset)))
        && (r.Ok? ==> p.pool.Keys == old(p.pool.Keys) + {old(backend.allocationCount)}
                      && r.value.parentId == Some(old(backend.allocationCount))
                      && p.FreshChunkServed(old(backend.allocationCount), req.sizeInBytes, req.alignment,
                                            r.value.offsetInBytes))
        && (r.Err? ==> p.pool == old(p.pool) && r.error == RuntimeError(NoContiguousChunk))
    {
      var t := req.memoryTypeIndex;
      var p := typedPools[t];
      assert PoolValid(t);
      r := p.Allocate(req);
      assert forall o: object :: old(allocated(o)) && o !in old({backend, p} + p.Arenas()) ==> unchanged(o);
      PoolsStayValid(t);
      OtherPoolsKept(t);
    }

    /** `free`: the allocation goes back to the pool of its memory type,
        which frees its pages and hands the chunk back to the shared backend
        exactly when it is left empty. Every other pool keeps its chunks. */
    method Free(a: Allocation)
      requires Valid() && a.memoryTypeIndex < |typedPools| && typedPools[a.memoryTypeIndex].Frees(a)
      modifies backend, typedPools[a.memoryTypeIndex]
      modifies typedPools[a.memoryTypeIndex].pool[a.parentId.value].arena
      ensures Valid()
      ensures forall i :: 0 <= i < |typedPools| && i != a.memoryTypeIndex ==>
        typedPools[i].pool == old(typedPools[i].pool)
      ensures backend.allocations == old(backend.allocations)
      ensures a.parentId.value in typedPools[a.memoryTypeIndex].pool ==>
        backend.activeAllocations == old(backend.activeAllocations)
      ensures a.parentId.value !in typedPools[a.memoryTypeIndex].pool ==>
        backend.activeAllocations == old(backend.activeAllocations) - 1
      ensures var p, k := typedPools[a.memoryTypeIndex], a.parentId.value;
        old(p.pool[k]).arena.pages == old(p.pool[k].PagesAfterFree(a))
      ensures var p, k := typedPools[a.memoryTypeIndex], a.parentId.value;
        k in p.pool <==> !old(p.pool[k]).IsEmpty()
      ensures var p, k := typedPools[a.memoryTypeIndex], a.parentId.value;
        (k in p.pool ==> p.pool == old(p.pool)) && (k !in p.pool ==> p.pool == old(p.pool) - {k})
    {
      var t := a.memoryTypeIndex;
      var p := typedPools[t];
      assert PoolValid(t);
      ElementBelowSum(ChunkCounts(), t);
      ghost var touched := Touched(t);
      assert p.pool[a.parentId.value].arena in touched;
      p.Free(a);
      assert forall o: object :: old(allocated(o)) && o !in touched ==> unchanged(o);
      PoolsStayValidAfterShrink(t);
    }
  }
}
