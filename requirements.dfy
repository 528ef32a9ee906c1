/** Allocation requirements, memory-type selection and the dedicated resource
    handle (`allocation_requirements/mod.rs`, `allocation_requirements.rs`,
    `allocation_requirements/dedicated_resource_handle.rs`). Vulkan handles are
    naturals with `NULL_HANDLE` (0) for `VK_NULL_HANDLE`; flag sets are `bv32`. */
module Requirements {
  import opened Errors
  import opened Arithmetic

  const NULL_HANDLE: nat := 0
  /** `VK_TRUE` as a `VkBool32`. */
  const VK_TRUE: bv32 := 1
  /** `VK_MAX_MEMORY_TYPES`: a device reports at most this many memory types. */
  const MAX_MEMORY_TYPES: nat := 32

  /** The resource a dedicated allocation is made for. The source's `None`
      variant is called `NoResource` here to keep it apart from `Option.None`. */
  datatype DedicatedResourceHandle = Buffer(buffer: nat) | Image(image: nat) | NoResource

  /** `VkMemoryDedicatedAllocateInfo`, reduced to the two handles it carries. */
  datatype DedicatedAllocateInfo = DedicatedAllocateInfo(buffer: nat, image: nat)

  /** `DedicatedResourceHandle::default()`: no resource, so its allocate info is
      the all-null default. */
  function DefaultHandle(): (h: DedicatedResourceHandle)
    ensures h.NoResource?
    ensures AsDedicatedAllocationInfo(h) == DedicatedAllocateInfo(NULL_HANDLE, NULL_HANDLE)
  {
    NoResource
  }

  /** `as_dedicated_allocation_info`: start from the all-null info and set the
      one handle the variant carries. */
  function AsDedicatedAllocationInfo(h: DedicatedResourceHandle): (info: DedicatedAllocateInfo)
    ensures h.Buffer? ==> info.buffer == h.buffer && info.image == NULL_HANDLE
    ensures h.Image? ==> info.image == h.image && info.buffer == NULL_HANDLE
    ensures h.NoResource? ==> info == DedicatedAllocateInfo(NULL_HANDLE, NULL_HANDLE)
  {
    var info := DedicatedAllocateInfo(NULL_HANDLE, NULL_HANDLE);
    match h
    case Buffer(b) => info.(buffer := b)
    case Image(i) => info.(image := i)
    case NoResource => info
  }

  /** A non-null handle is recovered from its allocate info: Buffer and Image
      handles never produce the same info, and equal infos mean equal handles. */
  lemma AllocateInfoDeterminesHandle(h1: DedicatedResourceHandle, h2: DedicatedResourceHandle)
    requires h1.Buffer? ==> h1.buffer != NULL_HANDLE
    requires h1.Image? ==> h1.image != NULL_HANDLE
    requires h2.Buffer? ==> h2.buffer != NULL_HANDLE
    requires h2.Image? ==> h2.image != NULL_HANDLE
    requires AsDedicatedAllocationInfo(h1) == AsDedicatedAllocationInfo(h2)
    ensures h1 == h2
  {
    match h1
    case Buffer(b) =>
      assert AsDedicatedAllocationInfo(h1).buffer == b;
    case Image(i) =>
      assert AsDedicatedAllocationInfo(h1).image == i;
    case NoResource =>
  }

  /** `vk::MemoryType` */
  datatype MemoryType = MemoryType(propertyFlags: bv32, heapIndex: nat)

  /** `AllocationRequirements` */
  datatype AllocationRequirements = AllocationRequirements(
    sizeInBytes: nat,
    alignment: nat,
    memoryTypeBits: bv32,
    memoryTypeIndex: nat,
    memoryProperties: bv32,
    prefersDedicatedAllocation: bool,
    requiresDedicatedAllocation: bool,
    dedicatedResourceHandle: DedicatedResourceHandle)

  /** `AllocationRequirements::default()` (the derived `Default`). */
  function DefaultRequirements(): AllocationRequirements
  {
    AllocationRequirements(0, 0, 0, 0, 0, false, false, DefaultHandle())
  }

  /** `aligned_size()`: the size rounded up to the least multiple of the
      alignment (an alignment of 0 leaves the size as it is). The routing
      limits of the sized allocator and the concrete pool refusals rest on
      this rounding. */
  function AlignedSize(req: AllocationRequirements): (n: nat)
    ensures n >= req.sizeInBytes
    ensures req.alignment > 0 ==> n % req.alignment == 0 && n < req.sizeInBytes + req.alignment
  {
    if req.alignment == 0 || req.sizeInBytes % req.alignment == 0 then req.sizeInBytes
    else
      var s, a := req.sizeInBytes, req.alignment;
      DivisionIsUnique(s, a, s / a, s % a);
      DivisionIsUnique(s + (a - s % a), a, s / a + 1, 0);
      s + (a - s % a)
  }

  /** What `get_buffer_memory_requirements2` writes into `VkMemoryRequirements2`
      and its chained `VkMemoryDedicatedRequirements`. */
  datatype QueriedRequirements = QueriedRequirements(
    size: nat,
    alignment: nat,
    memoryTypeBits: bv32,
    prefersDedicatedAllocation: bv32,
    requiresDedicatedAllocation: bv32)

  /** `MemoryPropertyFlags::contains` */
  predicate Contains(flags: bv32, required: bv32)
  {
    flags & required == required
  }

  /** Memory type `i` is allowed by `memoryTypeBits` and has every requested property. */
  predicate IsSuitableType(types: seq<MemoryType>, bits: bv32, properties: bv32, i: nat)
  {
    i < |types| && i < 32 && ((1 as bv32) << i) & bits != 0 && Contains(types[i].propertyFlags, properties)
  }

  /** The `find` over `enumerate()`, from position `from` on. */
  function FindFrom(types: seq<MemoryType>, bits: bv32, properties: bv32, from: nat): (r: Option<nat>)
    requires |types| <= MAX_MEMORY_TYPES
    requires from <= |types|
    decreases |types| - from
    ensures r.Some? ==> from <= r.value && IsSuitableType(types, bits, properties, r.value)
    ensures r.Some? ==> forall j :: from <= j < r.value ==> !IsSuitableType(types, bits, properties, j)
    ensures r.None? ==> forall j :: from <= j < |types| ==> !IsSuitableType(types, bits, properties, j)
  {
    if from == |types| then None
    else if IsSuitableType(types, bits, properties, from) then Some(from)
    else FindFrom(types, bits, properties, from + 1)
  }

  /** The selection step of `for_buffer`: the least index whose bit is set in
      `memoryTypeBits` and whose property flags contain the requested ones
      (section "Device Memory Properties" of the Vulkan 1.3 specification). */
  function FindMemoryTypeIndex(types: seq<MemoryType>, bits: bv32, properties: bv32): (r: Option<nat>)
    requires |types| <= MAX_MEMORY_TYPES
    ensures r.Some? ==> IsSuitableType(types, bits, properties, r.value)
    ensures r.Some? ==> forall j: nat :: j < r.value ==> !IsSuitableType(types, bits, properties, j)
    ensures r.None? <==> forall j :: !IsSuitableType(types, bits, properties, j)
  {
    FindFrom(types, bits, properties, 0)
  }

  /** `AllocationRequirements::for_buffer` once the device has been queried:
      `queried` is what `get_buffer_memory_requirements2` reports for `buffer`. */
  function ForBuffer(types: seq<MemoryType>, properties: bv32, buffer: nat, queried: QueriedRequirements)
    : (r: Result<AllocationRequirements>)
    requires |types| <= MAX_MEMORY_TYPES
    ensures r.Err? <==> forall j :: !IsSuitableType(types, queried.memoryTypeBits, properties, j)
    ensures r.Err? ==> r.error == NoSupportedTypeForProperties(queried.memoryTypeBits, properties)
    ensures r.Ok? ==>
      && IsSuitableType(types, queried.memoryTypeBits, properties, r.value.memoryTypeIndex)
      && (forall j: nat :: j < r.value.memoryTypeIndex ==> !IsSuitableType(types, queried.memoryTypeBits, properties, j))
      && r.value.sizeInBytes == queried.size
      && r.value.alignment == queried.alignment
      && r.value.memoryTypeBits == queried.memoryTypeBits
      && r.value.memoryProperties == properties
      && (r.value.prefersDedicatedAllocation <==> queried.prefersDedicatedAllocation == VK_TRUE)
      && (r.value.requiresDedicatedAllocation <==> queried.requiresDedicatedAllocation == VK_TRUE)
      && r.value.dedicatedResourceHandle == Buffer(buffer)
  {
    match FindMemoryTypeIndex(types, queried.memoryTypeBits, properties)
    case None => Err(NoSupportedTypeForProperties(queried.memoryTypeBits, properties))
    case Some(index) =>
      Ok(AllocationRequirements(
        queried.size,
        queried.alignment,
        queried.memoryTypeBits,
        index,
        properties,
        queried.prefersDedicatedAllocation == VK_TRUE,
        queried.requiresDedicatedAllocation == VK_TRUE,
        Buffer(buffer)))
  }
}
