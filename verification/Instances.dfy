/** The instance manager's port allocator and instance store. */
module Instances {
  import opened Wrappers
  import opened Events

  datatype Error = InvalidName | InvalidOptions | AllSlotsInUse | NotAllocated | AlreadyExists | NotFound | LaunchFailed

  type Result<+T> = Outcome<T, Error>

  const BASE_CONSOLE := 5554
  const BASE_AA_FWD := 5277

  datatype PortSlot = PortSlot(slotIndex: int, consolePort: int, adbPort: int, aaForwardPort: int)

  function SlotAt(i: int): PortSlot {
    PortSlot(i, BASE_CONSOLE + 2 * i, BASE_CONSOLE + 2 * i + 1, BASE_AA_FWD + i)
  }

  function PortsOf(i: int): set<int> {
    {BASE_CONSOLE + 2 * i, BASE_CONSOLE + 2 * i + 1, BASE_AA_FWD + i}
  }

  /** The three ports of a slot are different, and the console port gives the slot back. */
  lemma SlotOfConsolePort(i: int)
    ensures (SlotAt(i).consolePort - BASE_CONSOLE) / 2 == i
    ensures 0 <= i ==> |PortsOf(i)| == 3
  {
  }

  predicate AllDisjoint(maxSlots: int) {
    forall i, j :: 0 <= i < maxSlots && 0 <= j < maxSlots && i != j ==> PortsOf(i) !! PortsOf(j)
  }

  /** The forward ports run into the console ports at slot 277, and not before. */
  lemma PortsDisjointIff(maxSlots: int)
    ensures AllDisjoint(maxSlots) <==> maxSlots <= 277
  {
    if maxSlots > 277 {
      assert BASE_CONSOLE in PortsOf(0) && BASE_CONSOLE in PortsOf(277);
    }
  }

  /** The first of the slots `from` to `maxSlots` that is not in use; `maxSlots` if there is none. */
  function LowestFree(used: set<int>, maxSlots: nat, from: nat): (k: nat)
    requires from <= maxSlots
    ensures from <= k <= maxSlots && (k < maxSlots ==> k !in used)
    ensures forall i :: from <= i < k ==> i in used
    decreases maxSlots - from
  {
    if from == maxSlots || from !in used then from else LowestFree(used, maxSlots, from + 1)
  }

  class PortAllocator {
    const maxSlots: nat
    var used: set<int>

    constructor (maxSlots: nat := 8)
      ensures this.maxSlots == maxSlots && used == {}
    {
      this.maxSlots := maxSlots;
      used := {};
    }

    method Allocate() returns (r: Result<PortSlot>)
      modifies this`used
      ensures r.Ok? ==> 0 <= r.value.slotIndex < maxSlots && r.value.slotIndex !in old(used)
      ensures r.Ok? ==> r.value == SlotAt(r.value.slotIndex)
      ensures r.Ok? ==> r.value.consolePort == 5554 + 2 * r.value.slotIndex
      ensures r.Ok? ==> r.value.adbPort == r.value.consolePort + 1 && r.value.aaForwardPort == 5277 + r.value.slotIndex
      ensures r.Ok? ==> used == old(used) + {r.value.slotIndex}
      ensures r.Ok? ==> forall i :: 0 <= i < r.value.slotIndex ==> i in old(used)
      ensures r.Err? ==> r.error == AllSlotsInUse && used == old(used) && forall i :: 0 <= i < maxSlots ==> i in used
    {
      for i := 0 to maxSlots
        invariant used == old(used) && forall j :: 0 <= j < i ==> j in used
      {
        if i !in used {
          used := used + {i};
          return Ok(SlotAt(i));
        }
      }
      return Err(AllSlotsInUse);
    }

    method Release(slotIndex: int) returns (r: Result<()>)
      modifies this`used
      ensures r == if slotIndex in old(used) then Ok(()) else Err(NotAllocated)
      ensures used == old(used) - {slotIndex}
    {
      if slotIndex !in used { return Err(NotAllocated); }
      used := used - {slotIndex};
      return Ok(());
    }
  }

  datatype State = Creating | Running | Error | Destroying

  datatype Record = Record(state: State, ports: PortSlot)

  /** The map from names to records; a record is a value here. */
  class InstanceStore {
    var instances: map<string, Record>

    constructor ()
      ensures instances == map[]
    {
      instances := map[];
    }

    method Create(name: string, ports: PortSlot) returns (r: Result<Record>)
      modifies this
      ensures r == if name in old(instances) then Err(AlreadyExists) else Ok(Record(Creating, ports))
      ensures instances == if r.Ok? then old(instances)[name := r.value] else old(instances)
    {
      if name in instances { return Err(AlreadyExists); }
      var record := Record(Creating, ports);
      instances := instances[name := record];
      return Ok(record);
    }

    method Get(name: string) returns (r: Option<Record>)
      ensures r.Some? <==> name in instances
      ensures r.Some? ==> r.value == instances[name]
    {
      return if name in instances then Some(instances[name]) else None;
    }

    method UpdateState(name: string, state: State) returns (r: Result<()>)
      modifies this
      ensures r == if name in old(instances) then Ok(()) else Err(NotFound)
      ensures r.Err? ==> instances == old(instances)
      ensures r.Ok? ==> instances == old(instances)[name := old(instances)[name].(state := state)]
    {
      if name !in instances { return Err(NotFound); }
      instances := instances[name := instances[name].(state := state)];
      return Ok(());
    }

    method Remove(name: string) returns (r: Result<()>)
      modifies this
      ensures r == if name in old(instances) then Ok(()) else Err(NotFound)
      ensures instances == old(instances) - {name}
    {
      if name !in instances { return Err(NotFound); }
      instances := instances - {name};
      return Ok(());
    }
  }
}
