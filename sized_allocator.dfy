/** `SizedAllocator` (`sized_allocator.rs`): a router that sends requests whose
    aligned size is below a trigger to a small-object allocator and everything
    else to a large-object allocator. It owns no state of its own; both wrapped
    allocators are fake backends here. */
module SizedAllocators {
  import opened Errors
  import opened Arithmetic
  import opened Requirements
  import opened Allocations
  import opened Backends

  /** The rule both `allocate` and `free` apply: strictly below the trigger
      goes small, the trigger itself and above goes large. */
  predicate GoesSmall(req: AllocationRequirements, sizeTrigger: nat)
  {
    AlignedSize(req) < sizeTrigger
  }

  /** For a trigger that is a multiple of the alignment the rule reads on the
      raw size: the request goes small exactly when one more alignment step
      still fits below the trigger. With trigger 64 and alignment 8, sizes up
      to 56 go small and 57 to 63 go large. */
  lemma SmallIffAlignedStepFits(req: AllocationRequirements, sizeTrigger: nat)
    requires req.alignment > 0 && sizeTrigger % req.alignment == 0
    ensures GoesSmall(req, sizeTrigger) <==> req.sizeInBytes + req.alignment <= sizeTrigger
  {
    var n, a := AlignedSize(req), req.alignment;
    if n < sizeTrigger {
      assert n == (n / a) * a && sizeTrigger == (sizeTrigger / a) * a;
      if n / a >= sizeTrigger / a {
        MultiplyIsMonotonic(sizeTrigger / a, n / a, a);
        assert false;
      }
      MultipleGap(sizeTrigger / a, n / a, a);
    }
  }

  class SizedAllocator {
    const sizeTrigger: nat
    const small: FakeAllocator
    const large: FakeAllocator

    /** The two wrapped allocators are distinct valid backends. */
    ghost predicate Valid()
      reads small, large
    {
      small != large && small.Valid() && large.Valid()
    }

    /** `SizedAllocator::new` */
    constructor (sizeTrigger: nat, small: FakeAllocator, large: FakeAllocator)
      requires small != large && small.Valid() && large.Valid()
      ensures Valid()
      ensures this.sizeTrigger == sizeTrigger && this.small == small && this.large == large
    {
      this.sizeTrigger := sizeTrigger;
      this.small := small;
      this.large := large;
    }

    /** `allocate`: the chosen allocator serves the request and its result is
        returned as it is; the other allocator is not touched. */
    method Allocate(req: AllocationRequirements) returns (r: Result<Allocation>)
      requires Valid()
      modifies small, large
      ensures Valid()
      ensures GoesSmall(req, sizeTrigger) ==>
        && r == Ok(old(small.NextAllocation(req)))
        && small.allocations == old(small.allocations) + [req]
        && small.activeAllocations == old(small.activeAllocations) + 1
        && unchanged(large)
      ensures !GoesSmall(req, sizeTrigger) ==>
        && r == Ok(old(large.NextAllocation(req)))
        && large.allocations == old(large.allocations) + [req]
        && large.activeAllocations == old(large.activeAllocations) + 1
        && unchanged(small)
    {
      if AlignedSize(req) < sizeTrigger {
        r := small.Allocate(req);
      } else {
        r := large.Allocate(req);
      }
    }

    /** `free`: the same rule on the requirements the allocation carries, so an
        allocation goes back to the allocator that served it. The chosen
        backend must hold a live allocation (its counter is unsigned). */
    method Free(a: Allocation)
      requires Valid()
      requires GoesSmall(a.requirements, sizeTrigger) ==> small.activeAllocations > 0
      requires !GoesSmall(a.requirements, sizeTrigger) ==> large.activeAllocations > 0
      modifies small, large
      ensures Valid()
      ensures GoesSmall(a.requirements, sizeTrigger) ==>
        && small.activeAllocations == old(small.activeAllocations) - 1
        && small.allocations == old(small.allocations)
        && unchanged(large)
      ensures !GoesSmall(a.requirements, sizeTrigger) ==>
        && large.activeAllocations == old(large.activeAllocations) - 1
        && large.allocations == old(large.allocations)
        && unchanged(small)
    {
      if AlignedSize(a.requirements) < sizeTrigger {
        small.Free(a);
      } else {
        large.Free(a);
      }
    }

    /** Allocating and then freeing the result leaves both backends with the
        live allocation counts they started with: the free is routed to the
        allocator that served the request. */
    method AllocateThenFree(req: AllocationRequirements) returns (r: Result<Allocation>)
      requires Valid()
      modifies small, large
      ensures Valid() && r.Ok? && r.value.sizeInBytes == req.sizeInBytes
      ensures small.activeAllocations == old(small.activeAllocations)
      ensures large.activeAllocations == old(large.activeAllocations)
      ensures GoesSmall(req, sizeTrigger) ==> small.allocations == old(small.allocations) + [req]
      ensures !GoesSmall(req, sizeTrigger) ==> large.allocations == old(large.allocations) + [req]
      ensures GoesSmall(req, sizeTrigger) ==> large.allocations == old(large.allocations)
      ensures !GoesSmall(req, sizeTrigger) ==> small.allocations == old(small.allocations)
    {
      r := Allocate(req);
      Free(r.value);
    }
  }
}
