/**
 * CreateInstance and DestroyInstance as transactions of many steps, interleaved with those of
 * other names.  At most one call is in progress for each name.
 */
module InstanceManager {
  import opened Wrappers
  import opened Events
  import opened Instances

  /** What all calls share. */
  datatype Db = Db(used: set<int>, instances: map<string, Record>)

  /** The next thing a call does. */
  datatype Pc =
    | Check(valid: bool)
    | Allocate
    | StoreRecord(slot: int)
    | Launch(launched: int)
    | ReleaseSlot(failed: int)
    | RemoveFailed
    | Find
    | MarkDestroying(console: int)
    | Shutdown(consolePort: int)
    | ReleasePort(oldPort: int)
    | RemoveDestroyed

  datatype StepResult = StepResult(db: Db, next: Option<Pc>)

  function WithState(db: Db, name: string, state: State): Db {
    if name in db.instances then db.(instances := db.instances[name := db.instances[name].(state := state)]) else db
  }

  function SlotOfPort(consolePort: int): int {
    (consolePort - BASE_CONSOLE) / 2
  }

  /** One step of a call for `name`; `ok` is how the emulator's start turns out.  `None` ends the call. */
  function Step(maxSlots: nat, db: Db, name: string, pc: Pc, ok: bool): StepResult {
    match pc
    case Check(valid) => StepResult(db, if !valid || name in db.instances then None else Some(Allocate))
    case Allocate =>
      var k := LowestFree(db.used, maxSlots, 0);
      if k == maxSlots then StepResult(db, None) else StepResult(db.(used := db.used + {k}), Some(StoreRecord(k)))
    case StoreRecord(k) =>
      if name in db.instances then StepResult(db, None)
      else StepResult(db.(instances := db.instances[name := Record(Creating, SlotAt(k))]), Some(Launch(k)))
    case Launch(k) =>
      if ok && name in db.instances then StepResult(WithState(db, name, Running), None)
      else StepResult(WithState(db, name, State.Error), Some(ReleaseSlot(k)))
    case ReleaseSlot(k) =>
      if k in db.used then StepResult(db.(used := db.used - {k}), Some(RemoveFailed)) else StepResult(db, None)
    case RemoveFailed => StepResult(db.(instances := db.instances - {name}), None)
    case Find =>
      StepResult(db, if name in db.instances then Some(MarkDestroying(db.instances[name].ports.consolePort)) else None)
    case MarkDestroying(p) =>
      if name in db.instances then StepResult(WithState(db, name, Destroying), Some(Shutdown(p)))
      else StepResult(db, None)
    case Shutdown(p) => StepResult(db, Some(ReleasePort(p)))
    case ReleasePort(p) => StepResult(db.(used := db.used - {SlotOfPort(p)}), Some(RemoveDestroyed))
    case RemoveDestroyed => StepResult(db.(instances := db.instances - {name}), None)
  }

  /** The calls in progress, by name, and a history: for whom each slot in use was allocated. */
  datatype World = World(db: Db, calls: map<string, Pc>, owner: map<int, string>)

  const START := World(Db({}, map[]), map[], map[])

  datatype Action = Create(newName: string, valid: bool) | Destroy(oldName: string) | Go(name: string, ok: bool)

  function Owner(maxSlots: nat, w: World, name: string): map<int, string>
    requires name in w.calls
  {
    var pc := w.calls[name];
    if pc.Allocate? then
      var k := LowestFree(w.db.used, maxSlots, 0);
      if k == maxSlots then w.owner else w.owner[k := name]
    else if pc.ReleaseSlot? then w.owner - {pc.failed}
    else if pc.ReleasePort? then w.owner - {SlotOfPort(pc.oldPort)}
    else w.owner
  }

  function Taken(maxSlots: nat, w: World, name: string, ok: bool): World
    requires name in w.calls
  {
    var o := Step(maxSlots, w.db, name, w.calls[name], ok);
    World(o.db, if o.next.Some? then w.calls[name := o.next.value] else w.calls - {name}, Owner(maxSlots, w, name))
  }

  /** A second call for a name in progress does not start. */
  function Next(maxSlots: nat, w: World, a: Action): World {
    match a
    case Create(n, valid) => if n in w.calls then w else w.(calls := w.calls[n := Check(valid)])
    case Destroy(n) => if n in w.calls then w else w.(calls := w.calls[n := Find])
    case Go(n, ok) => if n in w.calls then Taken(maxSlots, w, n, ok) else w
  }

  function Run(maxSlots: nat, steps: seq<Action>): World {
    if steps == [] then START else Next(maxSlots, Run(maxSlots, steps[..|steps| - 1]), steps[|steps| - 1])
  }

  // ---- What every step keeps ----

  predicate CallAt(w: World, n: string, pc: Pc) {
    n in w.calls && w.calls[n] == pc
  }

  function SlotOf(w: World, n: string): int
    requires n in w.db.instances
  {
    w.db.instances[n].ports.slotIndex
  }

  /** The slot taken for a name: by its record, or by its call before there is one and until it is released. */
  function Held(w: World, n: string): Option<int> {
    if n in w.calls && w.calls[n].StoreRecord? then Some(w.calls[n].slot)
    else if n in w.calls && (w.calls[n].RemoveFailed? || w.calls[n].RemoveDestroyed?) then None
    else if n in w.db.instances then Some(SlotOf(w, n))
    else None
  }

  predicate RecordIs(w: World, n: string, state: State, k: int) {
    n in w.db.instances && w.db.instances[n] == Record(state, SlotAt(k))
  }

  predicate Stored(w: World, n: string, state: State) {
    n in w.db.instances && w.db.instances[n].state == state
  }

  /** What a call may rely on at each of its steps. */
  predicate CallOk(w: World, n: string) {
    n in w.calls ==>
      var pc := w.calls[n];
      && (pc.Allocate? || pc.StoreRecord? ==> n !in w.db.instances)
      && (pc.Launch? ==> RecordIs(w, n, Creating, pc.launched))
      && (pc.ReleaseSlot? ==> RecordIs(w, n, State.Error, pc.failed))
      && (pc.RemoveFailed? ==> Stored(w, n, State.Error))
      && (pc.MarkDestroying? ==> n in w.db.instances && w.db.instances[n].ports.consolePort == pc.console)
      && (pc.Shutdown? ==> Stored(w, n, Destroying) && w.db.instances[n].ports.consolePort == pc.consolePort)
      && (pc.ReleasePort? ==> Stored(w, n, Destroying) && w.db.instances[n].ports.consolePort == pc.oldPort)
      && (pc.RemoveDestroyed? ==> Stored(w, n, Destroying))
  }

  predicate PortsOk(w: World, n: string) {
    n in w.db.instances ==> w.db.instances[n].ports == SlotAt(SlotOf(w, n))
  }

  predicate HeldIsOwned(w: World, n: string) {
    Held(w, n).Some? ==> Held(w, n).value in w.owner && w.owner[Held(w, n).value] == n
  }

  predicate NameOk(w: World, n: string) {
    CallOk(w, n) && PortsOk(w, n) && HeldIsOwned(w, n)
  }

  predicate OwnedIsHeld(maxSlots: nat, w: World, k: int) {
    k in w.owner ==> 0 <= k < maxSlots && Held(w, w.owner[k]) == Some(k)
  }

  ghost predicate Inv(maxSlots: nat, w: World) {
    && w.db.used == w.owner.Keys
    && (forall n: string :: NameOk(w, n))
    && (forall k: int :: OwnedIsHeld(maxSlots, w, k))
  }

  /** `w'` is like `w` for every name but `n`. */
  ghost predicate OnlyChanges(w: World, w': World, n: string) {
    forall m: string :: m != n ==>
      && (m in w'.calls <==> m in w.calls) && (m in w.calls ==> w'.calls[m] == w.calls[m])
      && (m in w'.db.instances <==> m in w.db.instances)
      && (m in w.db.instances ==> w'.db.instances[m] == w.db.instances[m])
  }

  lemma OthersSame(w: World, w': World, n: string, m: string)
    requires OnlyChanges(w, w', n) && m != n
    ensures Held(w', m) == Held(w, m)
    ensures CallOk(w', m) == CallOk(w, m) && PortsOk(w', m) == PortsOk(w, m)
  {
  }

  /** A step that takes and releases nothing. */
  lemma SameOwnersKeep(maxSlots: nat, w: World, w': World, n: string)
    requires Inv(maxSlots, w) && OnlyChanges(w, w', n) && w'.owner == w.owner && w'.db.used == w.db.used
    requires CallOk(w', n) && PortsOk(w', n) && Held(w', n) == Held(w, n)
    ensures Inv(maxSlots, w')
  {
    forall m: string ensures NameOk(w', m) {
      assert NameOk(w, m);
      if m != n { OthersSame(w, w', n, m); }
    }
    forall k: int ensures OwnedIsHeld(maxSlots, w', k) {
      assert OwnedIsHeld(maxSlots, w, k);
      if k in w.owner && w.owner[k] != n { OthersSame(w, w', n, w.owner[k]); }
    }
  }

  /** A step that takes the free slot `k` for `n`. */
  lemma TakingKeeps(maxSlots: nat, w: World, w': World, n: string, k: int)
    requires Inv(maxSlots, w) && OnlyChanges(w, w', n) && 0 <= k < maxSlots && k !in w.db.used && Held(w, n).None?
    requires w'.owner == w.owner[k := n] && w'.db.used == w.db.used + {k}
    requires CallOk(w', n) && PortsOk(w', n) && Held(w', n) == Some(k)
    ensures Inv(maxSlots, w')
  {
    forall m: string ensures NameOk(w', m) {
      assert NameOk(w, m);
      if m != n { OthersSame(w, w', n, m); }
    }
    forall i: int ensures OwnedIsHeld(maxSlots, w', i) {
      assert OwnedIsHeld(maxSlots, w, i);
      if i != k && i in w.owner { OthersSame(w, w', n, w.owner[i]); }
    }
  }

  /** A step that releases the slot held for `n`. */
  lemma ReleasingKeeps(maxSlots: nat, w: World, w': World, n: string, k: int)
    requires Inv(maxSlots, w) && OnlyChanges(w, w', n) && Held(w, n) == Some(k)
    requires w'.owner == w.owner - {k} && w'.db.used == w.db.used - {k}
    requires CallOk(w', n) && PortsOk(w', n) && Held(w', n).None?
    ensures Inv(maxSlots, w')
  {
    assert NameOk(w, n);
    forall m: string ensures NameOk(w', m) {
      assert NameOk(w, m);
      if m != n { OthersSame(w, w', n, m); }
    }
    forall i: int ensures OwnedIsHeld(maxSlots, w', i) {
      assert OwnedIsHeld(maxSlots, w, i);
      if i != k && i in w.owner { OthersSame(w, w', n, w.owner[i]); }
    }
  }

  lemma TakenOnlyChanges(maxSlots: nat, w: World, n: string, ok: bool)
    requires n in w.calls
    ensures OnlyChanges(w, Taken(maxSlots, w, n, ok), n)
  {
  }

  lemma AllocateKeeps(maxSlots: nat, w: World, n: string, ok: bool)
    requires Inv(maxSlots, w) && CallAt(w, n, Allocate)
    ensures Inv(maxSlots, Taken(maxSlots, w, n, ok))
  {
    TakenOnlyChanges(maxSlots, w, n, ok);
    assert NameOk(w, n);
    var k, w' := LowestFree(w.db.used, maxSlots, 0), Taken(maxSlots, w, n, ok);
    if k < maxSlots { TakingKeeps(maxSlots, w, w', n, k); } else { SameOwnersKeep(maxSlots, w, w', n); }
  }

  lemma ReleaseSlotKeeps(maxSlots: nat, w: World, n: string, ok: bool)
    requires Inv(maxSlots, w) && n in w.calls && w.calls[n].ReleaseSlot?
    ensures Inv(maxSlots, Taken(maxSlots, w, n, ok))
  {
    TakenOnlyChanges(maxSlots, w, n, ok);
    assert NameOk(w, n);
    ReleasingKeeps(maxSlots, w, Taken(maxSlots, w, n, ok), n, w.calls[n].failed);
  }

  lemma ReleasePortKeeps(maxSlots: nat, w: World, n: string, ok: bool)
    requires Inv(maxSlots, w) && n in w.calls && w.calls[n].ReleasePort?
    ensures Inv(maxSlots, Taken(maxSlots, w, n, ok))
  {
    TakenOnlyChanges(maxSlots, w, n, ok);
    assert NameOk(w, n);
    SlotOfConsolePort(SlotOf(w, n));
    ReleasingKeeps(maxSlots, w, Taken(maxSlots, w, n, ok), n, SlotOf(w, n));
  }

  lemma OtherStepsKeep(maxSlots: nat, w: World, n: string, ok: bool)
    requires Inv(maxSlots, w) && n in w.calls
    requires !w.calls[n].Allocate? && !w.calls[n].ReleaseSlot? && !w.calls[n].ReleasePort?
    ensures Inv(maxSlots, Taken(maxSlots, w, n, ok))
  {
    TakenOnlyChanges(maxSlots, w, n, ok);
    assert NameOk(w, n);
    SameOwnersKeep(maxSlots, w, Taken(maxSlots, w, n, ok), n);
  }

  lemma BeginKeeps(maxSlots: nat, w: World, n: string, pc: Pc)
    requires Inv(maxSlots, w) && n !in w.calls && (pc.Check? || pc.Find?)
    ensures Inv(maxSlots, w.(calls := w.calls[n := pc]))
  {
    assert NameOk(w, n);
    SameOwnersKeep(maxSlots, w, w.(calls := w.calls[n := pc]), n);
  }

  lemma StepKeepsInv(maxSlots: nat, w: World, a: Action)
    requires Inv(maxSlots, w)
    ensures Inv(maxSlots, Next(maxSlots, w, a))
  {
    match a
    case Create(n, valid) => if n !in w.calls { BeginKeeps(maxSlots, w, n, Check(valid)); }
    case Destroy(n) => if n !in w.calls { BeginKeeps(maxSlots, w, n, Find); }
    case Go(n, ok) =>
      if n in w.calls {
        if w.calls[n].Allocate? { AllocateKeeps(maxSlots, w, n, ok); }
        else if w.calls[n].ReleaseSlot? { ReleaseSlotKeeps(maxSlots, w, n, ok); }
        else if w.calls[n].ReleasePort? { ReleasePortKeeps(maxSlots, w, n, ok); }
        else { OtherStepsKeep(maxSlots, w, n, ok); }
      }
  }

  lemma {:induction false} RunKeepsInv(maxSlots: nat, steps: seq<Action>)
    ensures Inv(maxSlots, Run(maxSlots, steps))
  {
    if steps != [] {
      RunKeepsInv(maxSlots, steps[..|steps| - 1]);
      StepKeepsInv(maxSlots, Run(maxSlots, steps[..|steps| - 1]), steps[|steps| - 1]);
    }
  }

  // ---- Port safety ----

  predicate Live(w: World, n: string) {
    Stored(w, n, Creating) || Stored(w, n, Running)
  }

  function Ports(w: World, n: string): set<int>
    requires n in w.db.instances
  {
    var p := w.db.instances[n].ports;
    {p.consolePort, p.adbPort, p.aaForwardPort}
  }

  lemma LiveHolds(maxSlots: nat, w: World, n: string)
    requires Inv(maxSlots, w) && Live(w, n)
    ensures Held(w, n) == Some(SlotOf(w, n)) && w.db.instances[n].ports == SlotAt(SlotOf(w, n))
    ensures SlotOf(w, n) in w.owner && w.owner[SlotOf(w, n)] == n && 0 <= SlotOf(w, n) < maxSlots
  {
    assert NameOk(w, n);
    assert OwnedIsHeld(maxSlots, w, SlotOf(w, n));
  }

  /** Instances being created or running use different slots, so with at most 277 slots different ports. */
  lemma NoSharedPorts(maxSlots: nat, steps: seq<Action>, n: string, m: string)
    requires n != m && Live(Run(maxSlots, steps), n) && Live(Run(maxSlots, steps), m)
    ensures SlotOf(Run(maxSlots, steps), n) != SlotOf(Run(maxSlots, steps), m)
    ensures maxSlots <= 277 ==> Ports(Run(maxSlots, steps), n) !! Ports(Run(maxSlots, steps), m)
  {
    var w := Run(maxSlots, steps);
    RunKeepsInv(maxSlots, steps);
    LiveHolds(maxSlots, w, n);
    LiveHolds(maxSlots, w, m);
    if maxSlots <= 277 {
      PortsDisjointIff(maxSlots);
      assert Ports(w, n) == PortsOf(SlotOf(w, n)) && Ports(w, m) == PortsOf(SlotOf(w, m));
    }
  }

  /** In every run, whatever its state, every record has the ports its slot stands for. */
  lemma RecordPorts(maxSlots: nat, steps: seq<Action>, n: string)
    requires n in Run(maxSlots, steps).db.instances
    ensures var p := Run(maxSlots, steps).db.instances[n].ports;
      && p.consolePort == 5554 + 2 * p.slotIndex && p.adbPort == p.consolePort + 1
      && p.aaForwardPort == 5277 + p.slotIndex
  {
    RunKeepsInv(maxSlots, steps);
    assert NameOk(Run(maxSlots, steps), n);
  }

  /** When no call is in progress, the slots in use are in bijection with the stored records. */
  lemma QuiescentSlots(maxSlots: nat, steps: seq<Action>)
    requires Run(maxSlots, steps).calls == map[]
    ensures var w := Run(maxSlots, steps);
      && (forall n :: n in w.db.instances ==> SlotOf(w, n) in w.db.used)
      && (forall n, m :: n in w.db.instances && m in w.db.instances && SlotOf(w, n) == SlotOf(w, m) ==> n == m)
      && (forall k :: k in w.db.used ==> exists n :: n in w.db.instances && SlotOf(w, n) == k)
  {
    var w := Run(maxSlots, steps);
    RunKeepsInv(maxSlots, steps);
    forall n | n in w.db.instances ensures SlotOf(w, n) in w.owner && w.owner[SlotOf(w, n)] == n {
      assert NameOk(w, n);
    }
    forall k | k in w.db.used ensures w.owner[k] in w.db.instances && SlotOf(w, w.owner[k]) == k {
      assert OwnedIsHeld(maxSlots, w, k);
    }
  }

  // ---- A call on its own ----

  function Rank(pc: Pc): nat {
    if pc.Check? || pc.Find? then 6
    else if pc.Allocate? || pc.MarkDestroying? then 5
    else if pc.StoreRecord? || pc.Shutdown? then 4
    else if pc.Launch? || pc.ReleasePort? then 3
    else if pc.ReleaseSlot? || pc.RemoveDestroyed? then 2
    else 1
  }

  /** The steps of a call up to its end, with none of another call in between. */
  function Completed(maxSlots: nat, db: Db, name: string, pc: Pc, ok: bool): Db
    decreases Rank(pc)
  {
    var o := Step(maxSlots, db, name, pc, ok);
    if o.next.None? then o.db else Completed(maxSlots, o.db, name, o.next.value, ok)
  }

  /** What a create leaves behind: a running instance on the lowest free slot, or nothing at all. */
  function AfterCreate(maxSlots: nat, db: Db, name: string, valid: bool, ok: bool): Db {
    var k := LowestFree(db.used, maxSlots, 0);
    if valid && name !in db.instances && k < maxSlots && ok then
      Db(db.used + {k}, db.instances[name := Record(Running, SlotAt(k))])
    else db
  }

  /** What a destroy leaves behind. */
  function AfterDestroy(db: Db, name: string): Db {
    if name in db.instances then
      Db(db.used - {SlotOfPort(db.instances[name].ports.consolePort)}, db.instances - {name})
    else db
  }

  lemma LaunchCompletes(maxSlots: nat, db: Db, name: string, k: int, ok: bool)
    requires k !in db.used && name !in db.instances
    ensures Completed(maxSlots, db.(used := db.used + {k}), name, StoreRecord(k), ok)
         == if ok then Db(db.used + {k}, db.instances[name := Record(Running, SlotAt(k))]) else db
  {
    var db1 := db.(used := db.used + {k});
    var db2 := db1.(instances := db.instances[name := Record(Creating, SlotAt(k))]);
    assert Step(maxSlots, db1, name, StoreRecord(k), ok) == StepResult(db2, Some(Launch(k)));
    if ok {
      assert db2.instances[name := Record(Running, SlotAt(k))] == db.instances[name := Record(Running, SlotAt(k))];
    } else {
      var db3 := WithState(db2, name, State.Error);
      assert Step(maxSlots, db2, name, Launch(k), ok) == StepResult(db3, Some(ReleaseSlot(k)));
      var db4 := db3.(used := db3.used - {k});
      assert Step(maxSlots, db3, name, ReleaseSlot(k), ok) == StepResult(db4, Some(RemoveFailed));
      assert db4.used == db.used && db4.instances - {name} == db.instances;
      assert Completed(maxSlots, db4, name, RemoveFailed, ok) == db;
      assert Completed(maxSlots, db2, name, Launch(k), ok) == db;
    }
  }

  /** A create that fails at any point undoes whatever it did. */
  lemma CreateCompletes(maxSlots: nat, db: Db, name: string, valid: bool, ok: bool)
    ensures Completed(maxSlots, db, name, Check(valid), ok) == AfterCreate(maxSlots, db, name, valid, ok)
  {
    var k := LowestFree(db.used, maxSlots, 0);
    if valid && name !in db.instances {
      assert Step(maxSlots, db, name, Check(valid), ok) == StepResult(db, Some(Allocate));
      if k < maxSlots {
        LaunchCompletes(maxSlots, db, name, k, ok);
        assert Completed(maxSlots, db, name, Allocate, ok) == AfterCreate(maxSlots, db, name, valid, ok);
      }
    }
  }

  lemma DestroyCompletes(maxSlots: nat, db: Db, name: string, ok: bool)
    ensures Completed(maxSlots, db, name, Find, ok) == AfterDestroy(db, name)
  {
    if name in db.instances {
      var p := db.instances[name].ports.consolePort;
      var db1 := WithState(db, name, Destroying);
      assert Step(maxSlots, db, name, Find, ok) == StepResult(db, Some(MarkDestroying(p)));
      assert Step(maxSlots, db, name, MarkDestroying(p), ok) == StepResult(db1, Some(Shutdown(p)));
      assert Step(maxSlots, db1, name, Shutdown(p), ok) == StepResult(db1, Some(ReleasePort(p)));
      var db2 := db1.(used := db1.used - {SlotOfPort(p)});
      assert Step(maxSlots, db1, name, ReleasePort(p), ok) == StepResult(db2, Some(RemoveDestroyed));
      assert Completed(maxSlots, db2, name, RemoveDestroyed, ok) == AfterDestroy(db, name) by {
        assert db2.instances - {name} == db.instances - {name};
      }
      assert Completed(maxSlots, db1, name, Shutdown(p), ok) == AfterDestroy(db, name);
    }
  }

  /** Destroying a newly created instance gives back its slot and everything else as it was. */
  lemma DestroyUndoesCreate(maxSlots: nat, db: Db, name: string, valid: bool, ok: bool)
    requires name !in db.instances
    ensures AfterDestroy(AfterCreate(maxSlots, db, name, valid, ok), name) == db
  {
    var k := LowestFree(db.used, maxSlots, 0);
    SlotOfConsolePort(k);
    assert db.instances[name := Record(Running, SlotAt(k))] - {name} == db.instances;
    if k < maxSlots { assert db.used + {k} - {k} == db.used; }
  }

  /** Which of the things that can go wrong with a create is reported. */
  function CreateError(maxSlots: nat, db: Db, name: string, validName: bool, validOptions: bool): Instances.Error {
    if !validName then InvalidName
    else if name in db.instances then AlreadyExists
    else if !validOptions then InvalidOptions
    else if forall k :: 0 <= k < maxSlots ==> k in db.used then AllSlotsInUse
    else LaunchFailed
  }

  /** The service itself.  Whether name and options are valid and whether the emulator starts are given. */
  class InstanceManagerServicer {
    const store: InstanceStore
    const allocator: PortAllocator

    constructor (store: InstanceStore, allocator: PortAllocator)
      ensures this.store == store && this.allocator == allocator
    {
      this.store := store;
      this.allocator := allocator;
    }

    ghost function Contents(): Db
      reads store, allocator
    {
      Db(allocator.used, store.instances)
    }

    method CreateInstance(name: string, validName: bool, validOptions: bool, ok: bool) returns (r: Result<Record>)
      modifies store, allocator
      ensures Contents() == AfterCreate(allocator.maxSlots, old(Contents()), name, validName && validOptions, ok)
      ensures r.Ok? <==> Contents() != old(Contents())
      ensures r.Ok? ==> name in store.instances && r.value == store.instances[name] && r.value.state == Running
      ensures r.Err? ==> r.error == CreateError(allocator.maxSlots, old(Contents()), name, validName, validOptions)
    {
      if !validName { return Err(InvalidName); }
      var existing := store.Get(name);
      if existing.Some? { return Err(AlreadyExists); }
      if !validOptions { return Err(InvalidOptions); }
      var ports := allocator.Allocate();
      if ports.Err? { return Err(ports.error); }
      var created := store.Create(name, ports.value);
      if created.Err? { return created; }
      if ok {
        var updated := store.UpdateState(name, Running);
        var record := store.Get(name);
        return Ok(record.value);
      }
      var failed := store.UpdateState(name, State.Error);
      var released := allocator.Release(ports.value.slotIndex);
      var removed := store.Remove(name);
      return Err(LaunchFailed);
    }

    method DestroyInstance(name: string) returns (r: Result<()>)
      modifies store, allocator
      ensures Contents() == AfterDestroy(old(Contents()), name)
      ensures r == if name in old(store.instances) then Ok(()) else Err(NotFound)
    {
      var record := store.Get(name);
      if record.None? { return Err(NotFound); }
      var marked := store.UpdateState(name, Destroying);
      var slotIndex := (record.value.ports.consolePort - BASE_CONSOLE) / 2;
      var released := allocator.Release(slotIndex);
      var removed := store.Remove(name);
      return Ok(());
    }
  }
}
