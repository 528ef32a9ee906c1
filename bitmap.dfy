/** The older bitmap form of the page search (`page_suballocator.rs`): a
    `true` bit is a used page. `set_region` writes a slice in place and
    `linear_probe` is the same first-fit search as the page arena's. */
module Bitmaps {
  import opened Errors

  /** Bits `[start, start + size)` exist and are all clear. */
  ghost predicate ClearRun(bits: seq<bool>, start: nat, size: nat)
  {
    start + size <= |bits| && forall j :: start <= j < start + size ==> !bits[j]
  }

  /** The bitmap with bits `[start, start + size)` set to `value`. */
  ghost function WithRegion(bits: seq<bool>, value: bool, start: nat, size: nat): (r: seq<bool>)
    requires start + size <= |bits|
    ensures |r| == |bits|
  {
    seq(|bits|, j requires 0 <= j < |bits| => if start <= j < start + size then value else bits[j])
  }

  /** `set_region`: sets exactly bits `[start, start + size)` to `value`. The
      source asserts `start + size <= bitmap.len()` and panics otherwise. */
  method SetRegion(bitmap: array<bool>, value: bool, start: nat, size: nat)
    requires start + size <= bitmap.Length
    modifies bitmap
    ensures bitmap[..] == WithRegion(old(bitmap[..]), value, start, size)
  {
    for i := start to start + size
      invariant forall j :: 0 <= j < bitmap.Length ==>
        bitmap[j] == if start <= j < i then value else old(bitmap[j])
    {
      bitmap[i] := value;
    }
  }

  /** Setting an empty region changes nothing. */
  lemma EmptyRegionIsIdentity(bits: seq<bool>, value: bool, start: nat)
    requires start <= |bits|
    ensures WithRegion(bits, value, start, 0) == bits
  {
  }

  /** `linear_probe`: the least start of `size` consecutive clear bits, or
      `None` when there is none. A size of 0 finds nothing, because the source
      compares against `size - 1`, which wraps around in a release build. */
  method LinearProbe(bitmap: seq<bool>, size: nat) returns (r: Option<nat>)
    ensures size == 0 ==> r == None
    ensures r.Some? ==> ClearRun(bitmap, r.value, size)
    ensures r.Some? ==> forall s: nat :: s < r.value ==> !ClearRun(bitmap, s, size)
    ensures size >= 1 && r.None? ==> forall s: nat :: !ClearRun(bitmap, s, size)
  {
    var inRegion := false;
    var start: nat := 0;
    for index := 0 to |bitmap|
      invariant inRegion ==> start <= index
      invariant inRegion && size >= 1 ==> index - start < size
      invariant inRegion ==> forall j :: start <= j < index ==> !bitmap[j]
      invariant inRegion ==> start == 0 || bitmap[start - 1]
      invariant !inRegion ==> index == 0 || bitmap[index - 1]
      invariant forall s: nat :: s + size <= index && size >= 1 ==> !ClearRun(bitmap, s, size)
    {
      if !bitmap[index] {
        if !inRegion {
          start := index;
          inRegion := true;
        }
        if inRegion && index - start == size - 1 {
          return Some(start);
        }
      } else if inRegion {
        inRegion := false;
        start := 0;
      }
      forall s: nat | s + size == index + 1 && size >= 1
        ensures !ClearRun(bitmap, s, size)
      {
        // a set bit inside [s, index]
        var w := if inRegion then start - 1 else index;
        assert s <= w <= index && bitmap[w];
      }
    }
    return None;
  }

  /** A run found after marking `[start, start + size)` used never overlaps
      that region. */
  lemma ProbeAvoidsMarkedRegion(bits: seq<bool>, start: nat, size: nat, found: nat, want: nat)
    requires start + size <= |bits| && size >= 1 && want >= 1
    requires ClearRun(WithRegion(bits, true, start, size), found, want)
    ensures found + want <= start || start + size <= found
  {
    var marked := WithRegion(bits, true, start, size);
    // the first bit an overlap would have is marked, yet inside the clear run
    var w := if found < start then start else found;
    assert found <= w < found + want ==> !marked[w];
    assert start <= w < start + size ==> marked[w];
  }
}
