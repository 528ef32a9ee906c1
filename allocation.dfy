/** The allocation record handed to callers. Its fields are the ones the
    allocators use: `new` with memory, memory type, offset, size and
    requirements, plus `id`, `parent_id` and `suballocate`. */
module Allocations {
  import opened Errors
  import opened Requirements

  datatype Allocation = Allocation(
    id: nat,
    parentId: Option<nat>,
    memory: nat,
    memoryTypeIndex: nat,
    offsetInBytes: nat,
    sizeInBytes: nat,
    requirements: AllocationRequirements)

  /** `Allocation::suballocate(parent, relative_offset, size)`: the same memory
      at `parent.offset + relative_offset` with the given size; its parent is the
      top-level allocation the region was carved from. */
  function Suballocate(parent: Allocation, relativeOffset: nat, size: nat): (a: Allocation)
    ensures a.memory == parent.memory && a.memoryTypeIndex == parent.memoryTypeIndex
    ensures a.offsetInBytes == parent.offsetInBytes + relativeOffset && a.sizeInBytes == size
    ensures a.parentId == Some(if parent.parentId.Some? then parent.parentId.value else parent.id)
  {
    parent.(
      offsetInBytes := parent.offsetInBytes + relativeOffset,
      sizeInBytes := size,
      parentId := Some(if parent.parentId.Some? then parent.parentId.value else parent.id))
  }
}
