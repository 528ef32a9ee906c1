/** `DedicatedAllocator` (`dedicated_allocator.rs`): a decorator that sends
    requests which prefer or require a dedicated allocation straight to a
    device allocator and everything else to the wrapped allocator. Both are
    fake backends here. */
module DedicatedAllocators {
  import opened Errors
  import opened Requirements
  import opened Allocations
  import opened Backends

  /** The rule both `allocate` and `free` apply. */
  predicate GoesDedicated(req: AllocationRequirements)
  {
    req.prefersDedicatedAllocation || req.requiresDedicatedAllocation
  }

  /** Requests built by `for_buffer` go dedicated exactly when the driver
      reported either dedicated flag as `VK_TRUE`. */
  lemma ForBufferGoesDedicated(types: seq<MemoryType>, properties: bv32, buffer: nat, queried: QueriedRequirements)
    requires |types| <= MAX_MEMORY_TYPES && ForBuffer(types, properties, buffer, queried).Ok?
    ensures GoesDedicated(ForBuffer(types, properties, buffer, queried).value) <==>
      (queried.prefersDedicatedAllocation == VK_TRUE || queried.requiresDedicatedAllocation == VK_TRUE)
  {
  }

  class DedicatedAllocator {
    const allocator: FakeAllocator
    const deviceAllocator: FakeAllocator

    /** The two wrapped allocators are distinct valid backends. */
    ghost predicate Valid()
      reads allocator, deviceAllocator
    {
      allocator != deviceAllocator && allocator.Valid() && deviceAllocator.Valid()
    }

    /** `DedicatedAllocator::new` */
    constructor (allocator: FakeAllocator, deviceAllocator: FakeAllocator)
      requires allocator != deviceAllocator && allocator.Valid() && deviceAllocator.Valid()
      ensures Valid()
      ensures this.allocator == allocator && this.deviceAllocator == deviceAllocator
    {
      this.allocator := allocator;
      this.deviceAllocator := deviceAllocator;
    }

    /** `allocate`: the chosen allocator serves the request and its result is
        returned as it is; the other allocator is not touched. */
    method Allocate(req: AllocationRequirements) returns (r: Result<Allocation>)
      requires Valid()
      modifies allocator, deviceAllocator
      ensures Valid()
      ensures GoesDedicated(req) ==>
        && r == Ok(old(deviceAllocator.NextAllocation(req)))
        && deviceAllocator.allocations == old(deviceAllocator.allocations) + [req]
        && deviceAllocator.activeAllocations == old(deviceAllocator.activeAllocations) + 1
        && unchanged(allocator)
      ensures !GoesDedicated(req) ==>
        && r == Ok(old(allocator.NextAllocation(req)))
        && allocator.allocations == old(allocator.allocations) + [req]
        && allocator.activeAllocations == old(allocator.activeAllocations) + 1
        && unchanged(deviceAllocator)
    {
      if req.prefersDedicatedAllocation || req.requiresDedicatedAllocation {
        r := deviceAllocator.Allocate(req);
      } else {
        r := allocator.Allocate(req);
      }
    }

    /** `free`: the same rule on the allocation's stored requirements. The
        chosen backend must hold a live allocation (its counter is unsigned). */
    method Free(a: Allocation)
      requires Valid()
      requires GoesDedicated(a.requirements) ==> deviceAllocator.activeAllocations > 0
      requires !GoesDedicated(a.requirements) ==> allocator.activeAllocations > 0
      modifies allocator, deviceAllocator
      ensures Valid()
      ensures GoesDedicated(a.requirements) ==>
        && deviceAllocator.activeAllocations == old(deviceAllocator.activeAllocations) - 1
        && deviceAllocator.allocations == old(deviceAllocator.allocations)
        && unchanged(allocator)
      ensures !GoesDedicated(a.requirements) ==>
        && allocator.activeAllocations == old(allocator.activeAllocations) - 1
        && allocator.allocations == old(allocator.allocations)
        && unchanged(deviceAllocator)
    {
      var req := a.requirements;
      if req.prefersDedicatedAllocation || req.requiresDedicatedAllocation {
        deviceAllocator.Free(a);
      } else {
        allocator.Free(a);
      }
    }

    /** Allocating and then freeing the result leaves both backends with the
        live allocation counts they started with. */
    method AllocateThenFree(req: AllocationRequirements) returns (r: Result<Allocation>)
      requires Valid()
      modifies allocator, deviceAllocator
      ensures Valid() && r.Ok? && r.value.sizeInBytes == req.sizeInBytes
      ensures allocator.activeAllocations == old(allocator.activeAllocations)
      ensures deviceAllocator.activeAllocations == old(deviceAllocator.activeAllocations)
      ensures GoesDedicated(req) ==> deviceAllocator.allocations == old(deviceAllocator.allocations) + [req]
      ensures !GoesDedicated(req) ==> allocator.allocations == old(allocator.allocations) + [req]
      ensures GoesDedicated(req) ==> allocator.allocations == old(allocator.allocations)
      ensures !GoesDedicated(req) ==> deviceAllocator.allocations == old(deviceAllocator.allocations)
    {
      r := Allocate(req);
      Free(r.value);
    }
  }
}
