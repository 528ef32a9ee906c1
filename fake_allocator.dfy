/** The recording test backend (`fake_allocator.rs`) and the trivial one
    (`null_allocator.rs`). Both hand out allocations of the null memory handle. */
module Backends {
  import opened Errors
  import opened Requirements
  import opened Allocations

  /** The total size of a sequence of requests. */
  function TotalSize(reqs: seq<AllocationRequirements>): nat
  {
    if |reqs| == 0 then 0 else TotalSize(reqs[..|reqs| - 1]) + reqs[|reqs| - 1].sizeInBytes
  }

  /** Where the `i`-th recorded request was placed: after all earlier ones. */
  function OffsetOf(reqs: seq<AllocationRequirements>, i: nat): nat
    requires i <= |reqs|
  {
    TotalSize(reqs[..i])
  }

  /** Offsets only grow along the recorded requests. */
  lemma {:induction false} OffsetsGrow(reqs: seq<AllocationRequirements>, i: nat, j: nat)
    requires i <= j <= |reqs|
    ensures OffsetOf(reqs, i) <= OffsetOf(reqs, j)
    decreases j - i
  {
    if i < j {
      OffsetsGrow(reqs, i, j - 1);
      assert reqs[..j][..j - 1] == reqs[..j - 1];
    }
  }

  /** The fake backend's regions are laid end to end: the `i`-th ends where
      the `(i + 1)`-th starts, so any two recorded regions are disjoint, and
      the offsets increase strictly past each non-empty region. */
  lemma RegionsAreDisjoint(reqs: seq<AllocationRequirements>, i: nat, j: nat)
    requires i < j < |reqs|
    ensures OffsetOf(reqs, i) + reqs[i].sizeInBytes == OffsetOf(reqs, i + 1)
    ensures OffsetOf(reqs, i) + reqs[i].sizeInBytes <= OffsetOf(reqs, j)
  {
    assert reqs[..i + 1][..i] == reqs[..i];
    OffsetsGrow(reqs, i + 1, j);
  }

  /** Appending a request leaves the earlier offsets where they were. */
  lemma OffsetsSurviveAppend(reqs: seq<AllocationRequirements>, req: AllocationRequirements, i: nat)
    requires i <= |reqs|
    ensures OffsetOf(reqs + [req], i) == OffsetOf(reqs, i)
    ensures OffsetOf(reqs + [req], |reqs|) == TotalSize(reqs)
  {
    assert (reqs + [req])[..i] == reqs[..i];
    assert reqs[..|reqs|] == reqs;
  }

  /** `FakeAllocator`: records every request and bump-allocates offsets. */
  class FakeAllocator {
    /** Every request, in the order made. */
    var allocations: seq<AllocationRequirements>
    /** Allocations not yet freed. */
    var activeAllocations: nat
    /** Allocations ever made. */
    var allocationCount: nat
    var offset: nat

    /** The count is the number of recorded requests, and the bump offset is
        their total size. */
    ghost predicate Valid()
      reads this
    {
      allocationCount == |allocations| && offset == TotalSize(allocations)
    }

    /** `FakeAllocator::default()` */
    constructor ()
      ensures Valid()
      ensures allocations == [] && activeAllocations == 0 && allocationCount == 0 && offset == 0
    {
      allocations := [];
      activeAllocations := 0;
      allocationCount := 0;
      offset := 0;
    }

    /** The allocation the next `allocate(req)` returns: null memory at the
        bump offset, with the request's size and memory type. It is identified
        by the number of earlier allocations. */
    function NextAllocation(req: AllocationRequirements): (a: Allocation)
      reads this
      ensures Valid() ==> a.offsetInBytes == OffsetOf(allocations + [req], |allocations|)
      ensures a.parentId.None? && a.memory == NULL_HANDLE
      ensures a.sizeInBytes == req.sizeInBytes && a.memoryTypeIndex == req.memoryTypeIndex
      ensures a.requirements == req && a.id == allocationCount
    {
      OffsetsSurviveAppend(allocations, req, |allocations|);
      Allocation(allocationCount, None, NULL_HANDLE, req.memoryTypeIndex, offset, req.sizeInBytes, req)
    }

    /** `allocate`: never fails; records `req`, counts one more live and one
        more total allocation, and moves the offset past the new region. */
    method Allocate(req: AllocationRequirements) returns (r: Result<Allocation>)
      requires Valid()
      modifies this
      ensures Valid()
      ensures r == Ok(old(NextAllocation(req)))
      ensures allocations == old(allocations) + [req]
      ensures activeAllocations == old(activeAllocations) + 1
      ensures allocationCount == old(allocationCount) + 1
      ensures offset == old(offset) + req.sizeInBytes
    {
      r := Ok(NextAllocation(req));
      activeAllocations := activeAllocations + 1;
      allocationCount := allocationCount + 1;
      assert (allocations + [req])[..|allocations|] == allocations;
      allocations := allocations + [req];
      offset := offset + req.sizeInBytes;
    }

    /** `free`: only one live allocation fewer. The source's `u32` counter
        would underflow at 0, so there must be a live allocation. */
    method Free(a: Allocation)
      requires activeAllocations > 0
      modifies this
      ensures activeAllocations == old(activeAllocations) - 1
      ensures allocations == old(allocations) && allocationCount == old(allocationCount)
      ensures offset == old(offset)
    {
      activeAllocations := activeAllocations - 1;
    }
  }

  /** `NullAllocator`: holds no state. */
  datatype NullAllocator = NullAllocator
  {
    /** `allocate`: always succeeds with null memory at offset 0 and the
        request's size and memory type. The allocation's id comes from the
        allocation record's constructor, so it is a parameter here. That
        constructor takes no requirements; the record's `requirements` field
        holds the request only as a placeholder, and nothing promises it. */
    function Allocate(req: AllocationRequirements, id: nat): (r: Result<Allocation>)
      ensures r.Ok?
      ensures r.value.memory == NULL_HANDLE && r.value.offsetInBytes == 0 && r.value.parentId.None?
      ensures r.value.sizeInBytes == req.sizeInBytes && r.value.memoryTypeIndex == req.memoryTypeIndex
    {
      Ok(Allocation(id, None, NULL_HANDLE, req.memoryTypeIndex, 0, req.sizeInBytes, req))
    }
  }
}
