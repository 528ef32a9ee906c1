/** Error values and the two failure-carrying wrappers the allocators return
    (`error.rs`). The source's `anyhow` messages become typed reasons. */
module Errors {

  datatype Option<+T> = None | Some(value: T)

  /** Why a `RuntimeError` was raised; one variant per message in the source. */
  datatype RuntimeReason =
    | MemoryTypeIndexMismatch          // "Memory type index mismatch"
    | ChunkTooSmall(sizeInBytes: nat)  // "Unable to allocate a chunk of memory with {} bytes"
    | NoContiguousChunk                // "Unable to find a contiguous chunk of the requested size."
    | MapFailed                        // "Unable to map a memory allocation!"
    | UnmapWithoutMapping              // "Attempted to unmap memory which has no mapping!"

  datatype AllocatorError =
    | NoSupportedTypeForProperties(memoryTypeBits: bv32, flags: bv32)
    | RuntimeError(reason: RuntimeReason)

  datatype Result<+T> = Ok(value: T) | Err(error: AllocatorError)
}
