/** `DeviceMemory` (`device_memory.rs`): a Vulkan memory handle whose host
    mapping is shared by all its clones and reference counted, so that the
    device map call happens only for the first `map` and the device unmap
    call only for the last `unmap`. Pointers are naturals with `NULL_PTR` for
    the null pointer. */
module DeviceMemories {
  import opened Errors
  import opened Arithmetic

  const NULL_PTR: nat := 0

  /** The contents of a `MappedPtr`. */
  datatype MapState = MapState(hostAccessiblePtr: nat, mapCount: nat)

  /** `MappedPtr::default()`: nothing mapped. */
  const UNMAPPED := MapState(NULL_PTR, 0)

  /** A state no sequence of calls leaves behind otherwise: with no mapping
      outstanding the pointer is null. */
  predicate Consistent(s: MapState)
  {
    s.mapCount == 0 ==> s.hostAccessiblePtr == NULL_PTR
  }

  /** The device is asked to map only when nothing is mapped yet. */
  predicate MapCallsDevice(s: MapState)
  {
    s.mapCount == 0
  }

  /** The device is asked to unmap only when the last mapping goes away. */
  predicate UnmapCallsDevice(s: MapState)
  {
    s.mapCount == 1
  }

  /** `map` on the shared state. `device` is what the device's map call
      returns if it is made: the mapped pointer, or `None` when it fails.
      The `u32` count must not overflow. */
  function MapStep(s: MapState, device: Option<nat>): (MapState, Result<nat>)
    requires s.mapCount + 1 < U32_LIMIT
  {
    if MapCallsDevice(s) then
      match device
      case None => (s, Err(RuntimeError(MapFailed)))
      case Some(ptr) => (MapState(ptr, 1), Ok(ptr))
    else
      (s.(mapCount := s.mapCount + 1), Ok(s.hostAccessiblePtr))
  }

  /** `unmap` on the shared state. */
  function UnmapStep(s: MapState): (MapState, Result<()>)
  {
    if s.mapCount == 0 then (s, Err(RuntimeError(UnmapWithoutMapping)))
    else if UnmapCallsDevice(s) then (UNMAPPED, Ok(()))
    else (s.(mapCount := s.mapCount - 1), Ok(()))
  }

  /** Both steps keep a consistent state consistent. */
  lemma StepsKeepConsistent(s: MapState, device: Option<nat>)
    requires Consistent(s)
    ensures s.mapCount + 1 < U32_LIMIT ==> Consistent(MapStep(s, device).0)
    ensures Consistent(UnmapStep(s).0)
  {
  }

  /** A failing map changes nothing, and one that succeeds counts one more
      mapping; a successful map is always of the pointer now held. */
  lemma MapOutcome(s: MapState, device: Option<nat>)
    requires s.mapCount + 1 < U32_LIMIT
    ensures var (t, r) := MapStep(s, device);
      (r.Err? <==> MapCallsDevice(s) && device.None?) &&
      (r.Err? ==> t == s) &&
      (r.Ok? ==> t.mapCount == s.mapCount + 1 && r.value == t.hostAccessiblePtr)
  {
  }

  /** Unmapping with nothing mapped is an error that changes nothing; otherwise
      one mapping fewer remains, and the last one takes the pointer with it. */
  lemma UnmapOutcome(s: MapState)
    ensures var (t, r) := UnmapStep(s);
      (r.Err? <==> s.mapCount == 0) &&
      (r.Err? ==> t == s) &&
      (r.Ok? ==> t.mapCount == s.mapCount - 1 && (t.mapCount == 0 ==> t.hostAccessiblePtr == NULL_PTR)) &&
      (r.Ok? && t.mapCount > 0 ==> t.hostAccessiblePtr == s.hostAccessiblePtr)
  {
  }

  /** Once mapped, every further map returns the same pointer, whatever the
      device would have answered. */
  lemma RepeatedMapReturnsSamePointer(s: MapState, first: Option<nat>, second: Option<nat>)
    requires s.mapCount + 2 < U32_LIMIT
    requires MapStep(s, first).1.Ok?
    ensures MapStep(MapStep(s, first).0, second).1 == MapStep(s, first).1
  {
  }

  /** An unmap undoes a successful map. */
  lemma UnmapUndoesMap(s: MapState, device: Option<nat>)
    requires Consistent(s) && s.mapCount + 1 < U32_LIMIT
    requires MapStep(s, device).1.Ok?
    ensures UnmapStep(MapStep(s, device).0) == (s, Ok(()))
  {
  }

  /** `n` maps in a row, each answered by `device` if the device is asked:
      the final state and how many times the device was asked. */
  function MapRepeatedly(s: MapState, device: Option<nat>, n: nat): (MapState, nat)
    requires s.mapCount + n < U32_LIMIT
    decreases n
  {
    if n == 0 then (s, 0)
    else
      var (next, calls) := MapRepeatedly(MapStep(s, device).0, device, n - 1);
      (next, calls + if MapCallsDevice(s) then 1 else 0)
  }

  /** `n` unmaps in a row: the final state and how many times the device was asked. */
  function UnmapRepeatedly(s: MapState, n: nat): (MapState, nat)
    decreases n
  {
    if n == 0 then (s, 0)
    else
      var (next, calls) := UnmapRepeatedly(UnmapStep(s).0, n - 1);
      (next, calls + if UnmapCallsDevice(s) then 1 else 0)
  }

  /** Maps on a mapped state only count up and never reach the device. */
  lemma {:induction false} MapsWhileMapped(ptr: nat, count: nat, n: nat)
    requires count > 0 && count + n < U32_LIMIT
    ensures MapRepeatedly(MapState(ptr, count), Some(ptr), n) == (MapState(ptr, count + n), 0)
    decreases n
  {
    if n > 0 {
      MapsWhileMapped(ptr, count + 1, n - 1);
    }
  }

  /** Unmaps that leave a mapping outstanding only count down and never reach
      the device; the one that removes the last mapping does, once. */
  lemma {:induction false} UnmapsWhileMapped(ptr: nat, count: nat, n: nat)
    requires n <= count
    ensures n < count ==> UnmapRepeatedly(MapState(ptr, count), n) == (MapState(ptr, count - n), 0)
    ensures n == count > 0 ==> UnmapRepeatedly(MapState(ptr, count), n) == (UNMAPPED, 1)
  {
    if n > 0 {
      var next := UnmapStep(MapState(ptr, count)).0;
      if count == 1 {
        assert next == UNMAPPED;
      } else {
        assert next == MapState(ptr, count - 1);
        UnmapsWhileMapped(ptr, count - 1, n - 1);
      }
    }
  }

  /** From nothing mapped, `n >= 1` successful maps followed by `n` unmaps
      return to nothing mapped, asking the device to map exactly once and to
      unmap exactly once. */
  lemma MapsThenUnmapsRestore(ptr: nat, n: nat)
    requires 0 < n < U32_LIMIT
    ensures MapRepeatedly(UNMAPPED, Some(ptr), n) == (MapState(ptr, n), 1)
    ensures UnmapRepeatedly(MapState(ptr, n), n) == (UNMAPPED, 1)
  {
    MapsWhileMapped(ptr, 1, n - 1);
    UnmapsWhileMapped(ptr, n, n);
  }

  /** The device calls `DeviceMemory` makes, in order. Whether a map call
      succeeds is up to the driver, so its answer is an argument. */
  class Device {
    var mapCalls: seq<nat>
    var unmapCalls: seq<nat>

    constructor ()
      ensures mapCalls == [] && unmapCalls == []
    {
      mapCalls := [];
      unmapCalls := [];
    }

    /** `map_memory(memory, 0, WHOLE_SIZE, empty)` */
    method MapMemory(memory: nat, answer: Option<nat>) returns (r: Option<nat>)
      modifies this
      ensures r == answer
      ensures mapCalls == old(mapCalls) + [memory] && unmapCalls == old(unmapCalls)
    {
      mapCalls := mapCalls + [memory];
      r := answer;
    }

    /** `unmap_memory(memory)` */
    method UnmapMemory(memory: nat)
      modifies this
      ensures unmapCalls == old(unmapCalls) + [memory] && mapCalls == old(mapCalls)
    {
      unmapCalls := unmapCalls + [memory];
    }
  }

  /** `MappedPtr`: the state all clones of one `DeviceMemory` share. */
  class MappedPtr {
    var hostAccessiblePtr: nat
    var mapCount: nat

    function State(): MapState
      reads this
    {
      MapState(hostAccessiblePtr, mapCount)
    }

    /** `MappedPtr::default()` */
    constructor ()
      ensures State() == UNMAPPED
    {
      hostAccessiblePtr := NULL_PTR;
      mapCount := 0;
    }
  }

  class DeviceMemory {
    const memory: nat
    const sharedMappedPtr: MappedPtr

    /** `DeviceMemory::new`: a fresh, unmapped shared state. */
    constructor (memory: nat)
      ensures this.memory == memory && fresh(sharedMappedPtr)
      ensures sharedMappedPtr.State() == UNMAPPED
    {
      this.memory := memory;
      sharedMappedPtr := new MappedPtr();
    }

    /** The derived `Clone`: the same memory and the same shared state. */
    method Clone() returns (c: DeviceMemory)
      ensures fresh(c) && c.memory == memory && c.sharedMappedPtr == sharedMappedPtr
    {
      c := new DeviceMemory.Share(memory, sharedMappedPtr);
    }

    /** A handle on memory whose mapping state already exists. */
    constructor Share(memory: nat, shared: MappedPtr)
      ensures this.memory == memory && sharedMappedPtr == shared
    {
      this.memory := memory;
      sharedMappedPtr := shared;
    }

    /** `map`: the first map asks the device for a pointer (`answer` is what
        the device replies); later maps return the pointer already held. */
    method Map(device: Device, answer: Option<nat>) returns (r: Result<nat>)
      requires sharedMappedPtr.mapCount + 1 < U32_LIMIT
      modifies sharedMappedPtr, device
      ensures (sharedMappedPtr.State(), r) == MapStep(old(sharedMappedPtr.State()), answer)
      ensures device.mapCalls == old(device.mapCalls) + if MapCallsDevice(old(sharedMappedPtr.State())) then [memory] else []
      ensures device.unmapCalls == old(device.unmapCalls)
    {
      var lock := sharedMappedPtr;
      if lock.mapCount == 0 {
        var mapped := device.MapMemory(memory, answer);
        if mapped.None? {
          return Err(RuntimeError(MapFailed));
        }
        lock.hostAccessiblePtr := mapped.value;
      }
      lock.mapCount := lock.mapCount + 1;
      r := Ok(lock.hostAccessiblePtr);
    }

    /** `unmap`: an error with nothing mapped; the last unmap asks the device
        to unmap and clears the pointer. */
    method Unmap(device: Device) returns (r: Result<()>)
      modifies sharedMappedPtr, device
      ensures (sharedMappedPtr.State(), r) == UnmapStep(old(sharedMappedPtr.State()))
      ensures device.unmapCalls == old(device.unmapCalls) + if UnmapCallsDevice(old(sharedMappedPtr.State())) then [memory] else []
      ensures device.mapCalls == old(device.mapCalls)
    {
      var lock := sharedMappedPtr;
      if lock.mapCount == 0 {
        return Err(RuntimeError(UnmapWithoutMapping));
      } else if lock.mapCount == 1 {
        device.UnmapMemory(memory);
        lock.hostAccessiblePtr := NULL_PTR;
      }
      lock.mapCount := lock.mapCount - 1;
      r := Ok(());
    }
  }
}
