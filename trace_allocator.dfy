/** `TraceAllocator` (`trace_allocator.rs`): a decorator that counts the
    allocations and frees passing through it, in total and per memory type,
    before handing each call to the wrapped allocator (a fake backend here). */
module TraceAllocators {
  import opened Errors
  import opened Requirements
  import opened Allocations
  import opened Backends
  import opened Arithmetic

  /** `Metrics`: allocations ever recorded, and how many of them are not yet freed. */
  datatype Metrics = Metrics(totalAllocations: nat, leakedAllocations: nat)
  {
    /** No more allocations are outstanding than were ever made. */
    predicate Consistent()
    {
      leakedAllocations <= totalAllocations
    }

    /** `record_allocation`: one more allocation, and one more outstanding.
        The source's `u32` counters must not overflow. */
    function RecordAllocation(): (m: Metrics)
      requires totalAllocations + 1 < U32_LIMIT && leakedAllocations + 1 < U32_LIMIT
      ensures m.totalAllocations == totalAllocations + 1 && m.leakedAllocations == leakedAllocations + 1
      ensures Consistent() ==> m.Consistent()
    {
      Metrics(totalAllocations + 1, leakedAllocations + 1)
    }

    /** `record_free`: one outstanding allocation fewer, the total is kept.
        The source's `u32` counter must not underflow. */
    function RecordFree(): (m: Metrics)
      requires leakedAllocations > 0
      ensures m.totalAllocations == totalAllocations && m.leakedAllocations == leakedAllocations - 1
      ensures Consistent() ==> m.Consistent()
    {
      this.(leakedAllocations := leakedAllocations - 1)
    }
  }

  /** A free after an allocation leaves the outstanding count where it was and
      the total one higher. */
  lemma FreeUndoesLeak(m: Metrics)
    requires m.totalAllocations + 1 < U32_LIMIT && m.leakedAllocations + 1 < U32_LIMIT
    ensures m.RecordAllocation().RecordFree() == m.(totalAllocations := m.totalAllocations + 1)
  {
  }

  /** Both counters of `m` one higher: `record_allocation` without its `u32` bound. */
  function Bumped(m: Metrics): Metrics
  {
    Metrics(m.totalAllocations + 1, m.leakedAllocations + 1)
  }

  /** `Metrics::default()` */
  const NO_METRICS := Metrics(0, 0)

  /** Counter-wise sum of two metrics. */
  function Plus(a: Metrics, b: Metrics): Metrics
  {
    Metrics(a.totalAllocations + b.totalAllocations, a.leakedAllocations + b.leakedAllocations)
  }

  /** `per_type.entry(k).or_default()`: a memory type never seen has zero counts. */
  function Entry(perType: map<nat, Metrics>, k: nat): (m: Metrics)
    ensures k !in perType ==> m == NO_METRICS
  {
    if k in perType then perType[k] else NO_METRICS
  }

  /** The counters of the entries of memory types below `n`, added up
      (types without an entry count zero). */
  function SumBelow(perType: map<nat, Metrics>, n: nat): Metrics
  {
    if n == 0 then NO_METRICS else Plus(SumBelow(perType, n - 1), Entry(perType, n - 1))
  }

  /** Changing the entry of a memory type at or above `n` leaves the sum below `n` alone. */
  lemma {:induction false} SumBelowIgnoresAbove(perType: map<nat, Metrics>, n: nat, k: nat, v: Metrics)
    requires n <= k
    ensures SumBelow(perType[k := v], n) == SumBelow(perType, n)
  {
    if n > 0 {
      SumBelowIgnoresAbove(perType, n - 1, k, v);
    }
  }

  /** Replacing the entry of a memory type below `n` moves the sum by the difference. */
  lemma {:induction false} SumBelowUpdate(perType: map<nat, Metrics>, n: nat, k: nat, v: Metrics)
    requires k < n
    ensures Plus(SumBelow(perType[k := v], n), Entry(perType, k)) == Plus(SumBelow(perType, n), v)
  {
    if k == n - 1 {
      SumBelowIgnoresAbove(perType, n - 1, k, v);
    } else {
      SumBelowUpdate(perType, n - 1, k, v);
    }
  }

  /** Memory types whose entry is zero add nothing to the sum. */
  lemma {:induction false} SumBelowSkipsZeros(perType: map<nat, Metrics>, n: nat, m: nat)
    requires n <= m
    requires forall j :: n <= j < m ==> Entry(perType, j) == NO_METRICS
    ensures SumBelow(perType, m) == SumBelow(perType, n)
    decreases m - n
  {
    if n < m {
      SumBelowSkipsZeros(perType, n, m - 1);
      assert Entry(perType, m - 1) == NO_METRICS;
    }
  }

  /** Every entry below `n` is bounded by the sum, counter by counter. */
  lemma {:induction false} EntryBelowSum(perType: map<nat, Metrics>, n: nat, k: nat)
    requires k < n
    ensures Entry(perType, k).totalAllocations <= SumBelow(perType, n).totalAllocations
    ensures Entry(perType, k).leakedAllocations <= SumBelow(perType, n).leakedAllocations
  {
    if k < n - 1 {
      EntryBelowSum(perType, n - 1, k);
    }
  }

  /** The bookkeeping `TraceAllocator` keeps: every memory type with an entry
      is below `bound`, `total` is the sum of the entries, and every count is
      consistent. */
  ghost predicate Tallied(perType: map<nat, Metrics>, bound: nat, total: Metrics)
  {
    && (forall k :: k in perType ==> k < bound && perType[k].Consistent())
    && total == SumBelow(perType, bound)
    && total.Consistent()
  }

  /** The bound once memory type `k` has an entry. */
  function BoundWith(bound: nat, k: nat): nat
  {
    if k < bound then bound else k + 1
  }

  /** Recording an allocation in `total` and under memory type `k` keeps the
      bookkeeping, and no per-type counter overflows where `total` does not. */
  lemma AllocationKeepsTally(perType: map<nat, Metrics>, bound: nat, total: Metrics, k: nat)
    requires Tallied(perType, bound, total) && total.totalAllocations + 1 < U32_LIMIT
    ensures Entry(perType, k).totalAllocations + 1 < U32_LIMIT
    ensures Entry(perType, k).leakedAllocations + 1 < U32_LIMIT
    ensures Tallied(perType[k := Bumped(Entry(perType, k))], BoundWith(bound, k), Bumped(total))
  {
    var m := perType[k := Bumped(Entry(perType, k))];
    if k < bound {
      EntryBelowSum(perType, bound, k);
      SumBelowUpdate(perType, bound, k, Bumped(Entry(perType, k)));
    } else {
      assert forall j :: bound <= j < k ==> Entry(perType, j) == NO_METRICS;
      SumBelowSkipsZeros(perType, bound, k);
      SumBelowIgnoresAbove(perType, k, k, Bumped(NO_METRICS));
      assert SumBelow(m, k + 1) == Plus(SumBelow(m, k), Bumped(NO_METRICS));
    }
  }

  /** Recording a free under a memory type with an outstanding allocation
      keeps the bookkeeping; `total` then has one outstanding too. */
  lemma FreeKeepsTally(perType: map<nat, Metrics>, bound: nat, total: Metrics, k: nat)
    requires Tallied(perType, bound, total) && Entry(perType, k).leakedAllocations > 0
    ensures k in perType && total.leakedAllocations > 0
    ensures Tallied(perType[k := perType[k].RecordFree()], bound, total.RecordFree())
  {
    EntryBelowSum(perType, bound, k);
    SumBelowUpdate(perType, bound, k, perType[k].RecordFree());
  }

  class TraceAllocator {
    const wrapped: FakeAllocator
    var total: Metrics
    var perType: map<nat, Metrics>
    /** Above every memory type with an entry. */
    ghost var bound: nat

    /** `total` is the sum of the per-type entries, every count is consistent,
        and the wrapped backend holds at least as many live allocations as are
        recorded as outstanding. */
    ghost predicate Valid()
      reads this, wrapped
    {
      && wrapped.Valid()
      && Counted()
      && total.leakedAllocations <= wrapped.activeAllocations
    }

    /** The counters' bookkeeping holds. */
    ghost predicate Counted()
      reads this
    {
      Tallied(perType, bound, total)
    }

    /** `TraceAllocator::new`, without the report's name and memory properties. */
    constructor (wrapped: FakeAllocator)
      requires wrapped.Valid()
      ensures Valid()
      ensures this.wrapped == wrapped && total == NO_METRICS && perType == map[]
    {
      this.wrapped := wrapped;
      total := NO_METRICS;
      perType := map[];
      bound := 0;
    }

    /** `allocate`: count the request in `total` and under its memory type
        (before the wrapped allocator is asked, so the count does not depend
        on the outcome), then return the wrapped allocator's result as it is. */
    method Allocate(req: AllocationRequirements) returns (r: Result<Allocation>)
      requires Valid() && total.totalAllocations + 1 < U32_LIMIT
      modifies this, wrapped
      ensures Valid()
      ensures total == Bumped(old(total))
      ensures perType == old(perType)[req.memoryTypeIndex := Bumped(old(Entry(perType, req.memoryTypeIndex)))]
      ensures r == Ok(old(wrapped.NextAllocation(req)))
      ensures wrapped.allocations == old(wrapped.allocations) + [req]
      ensures wrapped.activeAllocations == old(wrapped.activeAllocations) + 1
    {
      var k := req.memoryTypeIndex;
      AllocationKeepsTally(perType, bound, total, k);
      bound := BoundWith(bound, k);
      total := total.RecordAllocation();
      perType := perType[k := Entry(perType, k).RecordAllocation()];
      r := wrapped.Allocate(req);
    }

    /** `free`: count the free in `total` and under the allocation's memory
        type, then free it in the wrapped allocator. A memory type with no
        outstanding allocation would underflow its `u32` counter. */
    method Free(a: Allocation)
      requires Valid() && Entry(perType, a.memoryTypeIndex).leakedAllocations > 0
      modifies this, wrapped
      ensures Valid()
      ensures total.totalAllocations == old(total.totalAllocations)
      ensures total.leakedAllocations == old(total.leakedAllocations) - 1
      ensures var e := old(perType[a.memoryTypeIndex]);
        perType == old(perType)[a.memoryTypeIndex := Metrics(e.totalAllocations, e.leakedAllocations - 1)]
      ensures wrapped.activeAllocations == old(wrapped.activeAllocations) - 1
      ensures wrapped.allocations == old(wrapped.allocations)
    {
      var k := a.memoryTypeIndex;
      FreeKeepsTally(perType, bound, total, k);
      total := total.RecordFree();
      perType := perType[k := perType[k].RecordFree()];
      wrapped.Free(a);
    }
  }
}
