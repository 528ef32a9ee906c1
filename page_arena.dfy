/** A first-fit allocator over a fixed number of equal-size pages
    (`page_suballocator/page_arena.rs`). Every allocated page remembers the
    index of the first page of its chunk, so a chunk can be freed from any of
    its pages. */
module PageArenas {
  import opened Errors

  datatype Page = Free | Allocated(firstInChunk: nat)

  /** Pages `[start, start + count)` exist and are all free. */
  ghost predicate FreeRun(pages: seq<Page>, start: nat, count: nat)
  {
    start + count <= |pages| && forall j :: start <= j < start + count ==> pages[j] == Free
  }

  /** Chunks are contiguous: an `Allocated(f)` page at `j` has `f <= j` and
      every page from `f` to `j` belongs to the same chunk. */
  ghost predicate ChunksContiguous(pages: seq<Page>)
  {
    forall j :: 0 <= j < |pages| && pages[j].Allocated? ==>
      pages[j].firstInChunk <= j &&
      forall i :: pages[j].firstInChunk <= i <= j ==> pages[i] == pages[j]
  }

  /** The first page of every live chunk. */
  ghost function ChunkStarts(pages: seq<Page>): set<nat>
  {
    set j: nat | j < |pages| && pages[j] == Allocated(j)
  }

  /** The chunk starts among the first `n` pages. */
  ghost function StartsBelow(pages: seq<Page>, n: nat): set<nat>
    requires n <= |pages|
  {
    set j: nat | j < n && pages[j] == Allocated(j)
  }

  /** The number of chunk starts among the first `n` pages, counted page by
      page. */
  ghost function StartCount(pages: seq<Page>, n: nat): nat
    requires n <= |pages|
  {
    if n == 0 then 0
    else StartCount(pages, n - 1) + (if pages[n - 1] == Allocated(n - 1) then 1 else 0)
  }

  /** One page more adds its own start, if it is one, to the chunk starts. */
  lemma StartsBelowStep(pages: seq<Page>, n: nat)
    requires 0 < n <= |pages|
    ensures |StartsBelow(pages, n)| == |StartsBelow(pages, n - 1)| + if pages[n - 1] == Allocated(n - 1) then 1 else 0
  {
    var before, after := StartsBelow(pages, n - 1), StartsBelow(pages, n);
    if pages[n - 1] == Allocated(n - 1) {
      assert after == before + {n - 1};
    } else {
      assert after == before;
    }
  }

  /** Counting page by page gives the number of chunk starts. */
  lemma {:induction false} StartCountIsCardinality(pages: seq<Page>, n: nat)
    requires n <= |pages|
    ensures StartCount(pages, n) == |StartsBelow(pages, n)|
  {
    if n > 0 {
      StartCountIsCardinality(pages, n - 1);
      StartsBelowStep(pages, n);
    }
  }

  /** The number of live chunks, as the arena's invariant counts them. */
  lemma ChunkCountIsStartCount(pages: seq<Page>)
    ensures StartCount(pages, |pages|) == |ChunkStarts(pages)|
  {
    StartCountIsCardinality(pages, |pages|);
    assert StartsBelow(pages, |pages|) == ChunkStarts(pages);
  }

  /** The page sequence after chunk `first` is freed; any other page is kept. */
  ghost function WithoutChunk(pages: seq<Page>, first: nat): (r: seq<Page>)
    ensures |r| == |pages|
  {
    seq(|pages|, j requires 0 <= j < |pages| => if pages[j] == Allocated(first) then Free else pages[j])
  }

  /** The page sequence after pages `[start, start + count)` become chunk `start`. */
  ghost function WithChunk(pages: seq<Page>, start: nat, count: nat): (r: seq<Page>)
    ensures |r| == |pages|
  {
    seq(|pages|, j requires 0 <= j < |pages| => if start <= j < start + count then Allocated(start) else pages[j])
  }

  class PageArena {
    var pages: seq<Page>
    var allocationCount: nat

    /** Chunks are contiguous and disjoint, and `allocation_count` is the
        number of live chunks. */
    ghost predicate Valid()
      reads this
    {
      ChunksContiguous(pages) && allocationCount == StartCount(pages, |pages|)
    }

    /** `PageArena::new(page_count)` */
    constructor (pageCount: nat)
      ensures Valid() && IsEmpty()
      ensures pages == seq(pageCount, _ => Free) && allocationCount == 0
    {
      pages := seq(pageCount, _ => Free);
      allocationCount := 0;
      new;
      assert ChunkStarts(pages) == {} by {
        forall j: nat | j < |pages| ensures pages[j] != Allocated(j) { }
      }
      ChunkCountIsStartCount(pages);
    }

    /** `is_empty`: the allocation count is zero; by `EmptyIffNoChunks` and
        `EmptyIffAllFree`, no chunk and no allocated page remain. */
    predicate IsEmpty()
      reads this
    {
      allocationCount == 0
    }

    /** `find_first_free_chunk`: the lowest start of a run of `pageCount`
        free pages. A request for 0 pages finds nothing: the source compares
        against `page_count - 1`, which wraps around in a release build. */
    method FindFirstFreeChunk(pageCount: nat) returns (r: Option<nat>)
      ensures pageCount == 0 ==> r == None
      ensures r.Some? ==> FreeRun(pages, r.value, pageCount)
      ensures r.Some? ==> forall s: nat :: s < r.value ==> !FreeRun(pages, s, pageCount)
      ensures pageCount >= 1 && r.None? ==> forall s: nat :: !FreeRun(pages, s, pageCount)
    {
      var inRegion := false;
      var start: nat := 0;
      var index: nat := 0;
      while index < |pages|
        invariant index <= |pages|
        invariant inRegion ==> start <= index
        invariant inRegion && pageCount >= 1 ==> index - start < pageCount
        invariant inRegion ==> forall j :: start <= j < index ==> pages[j] == Free
        invariant inRegion ==> start == 0 || pages[start - 1] != Free
        invariant !inRegion ==> index == 0 || pages[index - 1] != Free
        invariant forall s: nat :: s + pageCount <= index && pageCount >= 1 ==> !FreeRun(pages, s, pageCount)
      {
        if pages[index] == Free {
          if !inRegion {
            start := index;
            inRegion := true;
          }
          if inRegion && index - start == pageCount - 1 {
            return Some(start);
          }
        } else if inRegion {
          inRegion := false;
          start := 0;
        }
        NoRunEndsAt(pages, index, pageCount, inRegion, start);
        index := index + 1;
      }
      return None;
    }

    /** `allocate_chunk`: the first-fit start of `pageCount` free pages, which
        become one chunk; on failure nothing changes. */
    method AllocateChunk(pageCount: nat) returns (r: Option<nat>)
      requires Valid()
      modifies this
      ensures Valid()
      ensures r.None? <==> pageCount == 0 || forall s: nat :: !old(FreeRun(pages, s, pageCount))
      ensures r.None? ==> unchanged(this)
      ensures r.Some? ==> old(FreeRun(pages, r.value, pageCount))
      ensures r.Some? ==> forall s: nat :: s < r.value ==> !old(FreeRun(pages, s, pageCount))
      ensures r.Some? ==> pages == WithChunk(old(pages), r.value, pageCount)
      ensures r.Some? ==> allocationCount == old(allocationCount) + 1
      ensures r.Some? ==> ChunkStarts(pages) == old(ChunkStarts(pages)) + {r.value}
      ensures r.Some? ==> r.value !in old(ChunkStarts(pages))
    {
      r := FindFirstFreeChunk(pageCount);
      if r.None? {
        return;
      }
      var first := r.value;
      ghost var before := pages;
      for i := first to first + pageCount
        invariant |pages| == |before| && allocationCount == old(allocationCount)
        invariant forall j :: 0 <= j < |pages| ==>
          pages[j] == if first <= j < i then Allocated(first) else before[j]
      {
        pages := pages[i := Allocated(first)];
      }
      assert pages == WithChunk(before, first, pageCount);
      AddChunkKeepsShape(before, first, pageCount);
      assert |ChunkStarts(pages)| == |ChunkStarts(before)| + 1;
      ChunkCountIsStartCount(before);
      ChunkCountIsStartCount(pages);
      allocationCount := allocationCount + 1;
    }

    /** `free_chunk(index)`: frees the whole chunk containing page `index`,
        whichever of its pages that is; a free page is left alone (the source's
        `debug_assert` makes that case a caller error in debug builds only). */
    method FreeChunk(index: nat)
      requires Valid()
      requires index < |pages|
      modifies this
      ensures Valid()
      ensures old(pages[index]) == Free ==> pages == old(pages) && allocationCount == old(allocationCount)
      ensures old(pages[index]).Allocated? ==>
        && pages == WithoutChunk(old(pages), old(pages[index]).firstInChunk)
        && allocationCount == old(allocationCount) - 1
        && ChunkStarts(pages) == old(ChunkStarts(pages)) - {old(pages[index]).firstInChunk}
    {
      var first;
      match pages[index]
      case Free => return;
      case Allocated(f) => first := f;
      ghost var before := pages;
      assert before[first] == Allocated(first);
      var i := first;
      while i < |pages| && pages[i] == Allocated(first)
        invariant first <= i <= |pages| && |pages| == |before|
        invariant allocationCount == old(allocationCount)
        invariant forall j :: 0 <= j < |pages| ==>
          pages[j] == if first <= j < i then Free else before[j]
        invariant forall j :: first <= j < i ==> before[j] == Allocated(first)
      {
        pages := pages[i := Free];
        i := i + 1;
      }
      ChunkEndsAt(before, first, i);
      assert pages == WithoutChunk(before, first);
      RemoveChunkKeepsShape(before, first);
      assert |ChunkStarts(pages)| == |ChunkStarts(before)| - 1;
      ChunkCountIsStartCount(before);
      ChunkCountIsStartCount(pages);
      allocationCount := allocationCount - 1;
    }
  }

  /** Loop step of the first-fit search: once page `index` has been looked
      at without a hit, no run of `count` free pages ends at `index`. */
  lemma NoRunEndsAt(pages: seq<Page>, index: nat, count: nat, inRegion: bool, start: nat)
    requires index < |pages|
    requires inRegion <==> pages[index] == Free
    requires inRegion ==> start <= index
    requires inRegion && count >= 1 ==> index - start < count - 1
    requires inRegion ==> forall j :: start <= j <= index ==> pages[j] == Free
    requires inRegion ==> start == 0 || pages[start - 1] != Free
    ensures forall s: nat :: s + count == index + 1 && count >= 1 ==> !FreeRun(pages, s, count)
  {
    forall s: nat | s + count == index + 1 && count >= 1
      ensures !FreeRun(pages, s, count)
    {
      // a page of [s, index] that is not free
      var w := if inRegion then start - 1 else index;
      assert s <= w <= index && pages[w] != Free;
    }
  }

  /** A valid arena is empty exactly when it has no live chunk. */
  lemma EmptyIffNoChunks(arena: PageArena)
    requires arena.Valid()
    ensures arena.IsEmpty() <==> ChunkStarts(arena.pages) == {}
  {
    ChunkCountIsStartCount(arena.pages);
  }

  /** There is no chunk start exactly when no page is allocated. */
  lemma EmptyIffAllFree(pages: seq<Page>)
    requires ChunksContiguous(pages)
    ensures |ChunkStarts(pages)| == 0 <==> forall j :: 0 <= j < |pages| ==> pages[j] == Free
  {
    forall j | 0 <= j < |pages| && pages[j].Allocated?
      ensures pages[j].firstInChunk in ChunkStarts(pages)
    {
      var f := pages[j].firstInChunk;
      assert pages[f] == Allocated(f);
    }
    if ChunkStarts(pages) != {} {
      var s :| s in ChunkStarts(pages);
      assert pages[s] != Free;
    }
  }

  /** Making a free run into a chunk keeps chunks contiguous and adds one start. */
  lemma AddChunkKeepsShape(pages: seq<Page>, start: nat, count: nat)
    requires ChunksContiguous(pages) && FreeRun(pages, start, count) && count >= 1
    ensures ChunksContiguous(WithChunk(pages, start, count))
    ensures ChunkStarts(WithChunk(pages, start, count)) == ChunkStarts(pages) + {start}
    ensures start !in ChunkStarts(pages)
  {
    var after := WithChunk(pages, start, count);
    forall j | 0 <= j < |after| && after[j].Allocated?
      ensures after[j].firstInChunk <= j
      ensures forall i :: after[j].firstInChunk <= i <= j ==> after[i] == after[j]
    {
      if !(start <= j < start + count) {
        var f := pages[j].firstInChunk;
        forall i | f <= i <= j ensures after[i] == after[j] {
          assert pages[i] == pages[j];
        }
      }
    }
  }

  /** The run of `Allocated(first)` pages starting at `first` and stopping at
      `end` is all of chunk `first`. */
  lemma ChunkEndsAt(pages: seq<Page>, first: nat, end: nat)
    requires ChunksContiguous(pages) && first <= end <= |pages|
    requires end < |pages| ==> pages[end] != Allocated(first)
    requires forall j :: first <= j < end ==> pages[j] == Allocated(first)
    ensures forall j :: 0 <= j < |pages| && pages[j] == Allocated(first) ==> first <= j < end
  {
    forall j | 0 <= j < |pages| && pages[j] == Allocated(first) ensures first <= j < end {
      assert forall i :: first <= i <= j ==> pages[i] == Allocated(first);
    }
  }

  /** Freeing a whole chunk keeps chunks contiguous and removes its start. */
  lemma RemoveChunkKeepsShape(pages: seq<Page>, first: nat)
    requires ChunksContiguous(pages) && first < |pages| && pages[first] == Allocated(first)
    ensures ChunksContiguous(WithoutChunk(pages, first))
    ensures ChunkStarts(WithoutChunk(pages, first)) == ChunkStarts(pages) - {first}
    ensures first in ChunkStarts(pages)
  {
    var after := WithoutChunk(pages, first);
    forall j | 0 <= j < |after| && after[j].Allocated?
      ensures after[j].firstInChunk <= j
      ensures forall i :: after[j].firstInChunk <= i <= j ==> after[i] == after[j]
    {
      var f := pages[j].firstInChunk;
      forall i | f <= i <= j ensures after[i] == after[j] {
        assert pages[i] == pages[j];
      }
    }
  }

  /** Freeing a chunk just made from a free run gives back the pages as they
      were: allocating and then freeing is a round trip. */
  lemma FreeUndoesAllocate(pages: seq<Page>, start: nat, count: nat)
    requires ChunksContiguous(pages) && FreeRun(pages, start, count) && count >= 1
    ensures WithoutChunk(WithChunk(pages, start, count), start) == pages
  {
    var after := WithChunk(pages, start, count);
    forall j | 0 <= j < |pages| ensures WithoutChunk(after, start)[j] == pages[j] {
      if !(start <= j < start + count) && pages[j] == Allocated(start) {
        // chunk `start` would reach back to page `start`, which is free
        assert pages[start] == pages[j];
      }
    }
  }

  /** `test_smoke_test`: on a fresh arena of `pageCount` pages, ask `attempts`
      times for `chunkPages` pages, then free every start that was handed out;
      the arena ends empty. */
  method SmokeTest(pageCount: nat, chunkPages: nat, attempts: nat) returns (empty: bool)
    ensures empty
  {
    var arena := new PageArena(pageCount);
    var chunks: seq<nat> := [];
    for n := 0 to attempts
      invariant arena.Valid() && arena.allocationCount == |chunks|
      invariant forall i :: 0 <= i < |chunks| ==> chunks[i] in ChunkStarts(arena.pages)
      invariant forall i, j :: 0 <= i < j < |chunks| ==> chunks[i] != chunks[j]
    {
      var r := arena.AllocateChunk(chunkPages);
      if r.Some? {
        chunks := chunks + [r.value];
      }
    }
    for n := 0 to |chunks|
      invariant arena.Valid() && arena.allocationCount == |chunks| - n
      invariant forall i :: n <= i < |chunks| ==> chunks[i] in ChunkStarts(arena.pages)
    {
      arena.FreeChunk(chunks[n]);
    }
    empty := arena.IsEmpty();
  }
}
