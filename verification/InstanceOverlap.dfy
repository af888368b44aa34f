/**
 * The same calls without the exclusion: any number of them may be in progress for one name.  Runs
 * in which names happen not to clash are those of `InstanceManager`; others can leak a slot.
 */
module InstanceOverlap {
  import opened Wrappers
  import opened Events
  import opened Instances
  import Manager = InstanceManager

  datatype Call = Call(name: string, pc: Manager.Pc)

  /** Calls in progress, each under a number of its own. */
  datatype World = World(db: Manager.Db, calls: map<nat, Call>)

  const START := World(Manager.Db({}, map[]), map[])

  datatype Action =
    | Create(id: nat, newName: string, valid: bool)
    | Destroy(id: nat, oldName: string)
    | Go(id: nat, ok: bool)

  function Begun(w: World, id: nat, call: Call): World {
    if id in w.calls then w else w.(calls := w.calls[id := call])
  }

  function Taken(maxSlots: nat, w: World, id: nat, ok: bool): World
    requires id in w.calls
  {
    var call := w.calls[id];
    var r := Manager.Step(maxSlots, w.db, call.name, call.pc, ok);
    World(r.db, if r.next.Some? then w.calls[id := Call(call.name, r.next.value)] else w.calls - {id})
  }

  function Next(maxSlots: nat, w: World, a: Action): World {
    match a
    case Create(id, n, valid) => Begun(w, id, Call(n, Manager.Check(valid)))
    case Destroy(id, n) => Begun(w, id, Call(n, Manager.Find))
    case Go(id, ok) => if id in w.calls then Taken(maxSlots, w, id, ok) else w
  }

  function Run(maxSlots: nat, steps: seq<Action>): World {
    if steps == [] then START else Next(maxSlots, Run(maxSlots, steps[..|steps| - 1]), steps[|steps| - 1])
  }

  // ---- With the exclusion ----

  predicate Busy(w: World, n: string) {
    exists id :: id in w.calls && w.calls[id].name == n
  }

  /** A call begins only while none is in progress for its name. */
  predicate Exclusive(w: World, a: Action) {
    && (a.Create? && a.id !in w.calls ==> !Busy(w, a.newName))
    && (a.Destroy? && a.id !in w.calls ==> !Busy(w, a.oldName))
  }

  predicate ExclusiveRun(maxSlots: nat, steps: seq<Action>) {
    steps != [] ==>
      && ExclusiveRun(maxSlots, steps[..|steps| - 1])
      && Exclusive(Run(maxSlots, steps[..|steps| - 1]), steps[|steps| - 1])
  }

  /** The same calls, one for each name. */
  ghost predicate SameCalls(w: World, m: Manager.World) {
    && w.db == m.db
    && (forall id :: id in w.calls ==> w.calls[id].name in m.calls && m.calls[w.calls[id].name] == w.calls[id].pc)
    && (forall n :: n in m.calls ==> Busy(w, n))
    && (forall i, j :: i in w.calls && j in w.calls && w.calls[i].name == w.calls[j].name ==> i == j)
  }

  function ByName(w: World, a: Action): seq<Manager.Action> {
    match a
    case Create(id, n, valid) => if id in w.calls then [] else [Manager.Create(n, valid)]
    case Destroy(id, n) => if id in w.calls then [] else [Manager.Destroy(n)]
    case Go(id, ok) => if id in w.calls then [Manager.Go(w.calls[id].name, ok)] else []
  }

  /** The run by names. */
  function NamedSteps(maxSlots: nat, steps: seq<Action>): seq<Manager.Action> {
    if steps == [] then []
    else
      NamedSteps(maxSlots, steps[..|steps| - 1]) + ByName(Run(maxSlots, steps[..|steps| - 1]), steps[|steps| - 1])
  }

  lemma BegunIsSame(w: World, m: Manager.World, id: nat, n: string, pc: Manager.Pc)
    requires SameCalls(w, m) && id !in w.calls && !Busy(w, n)
    ensures n !in m.calls && SameCalls(Begun(w, id, Call(n, pc)), m.(calls := m.calls[n := pc]))
  {
    var w', m' := Begun(w, id, Call(n, pc)), m.(calls := m.calls[n := pc]);
    forall k | k in m'.calls ensures Busy(w', k) {
      if k == n {
        assert w'.calls[id].name == k;
      } else {
        var i :| i in w.calls && w.calls[i].name == k;
        assert w'.calls[i].name == k;
      }
    }
  }

  lemma TakenIsSame(maxSlots: nat, w: World, m: Manager.World, id: nat, ok: bool)
    requires SameCalls(w, m) && id in w.calls
    ensures w.calls[id].name in m.calls
    ensures SameCalls(Taken(maxSlots, w, id, ok), Manager.Taken(maxSlots, m, w.calls[id].name, ok))
  {
    var n := w.calls[id].name;
    var w', m' := Taken(maxSlots, w, id, ok), Manager.Taken(maxSlots, m, n, ok);
    forall k | k in m'.calls ensures Busy(w', k) {
      if k == n {
        assert w'.calls[id].name == k;
      } else {
        var i :| i in w.calls && w.calls[i].name == k;
        assert w'.calls[i].name == k;
      }
    }
  }

  lemma NamedSnoc(maxSlots: nat, steps: seq<Manager.Action>, a: Manager.Action)
    ensures Manager.Run(maxSlots, steps + [a]) == Manager.Next(maxSlots, Manager.Run(maxSlots, steps), a)
  {
    assert (steps + [a])[..|steps|] == steps;
  }

  lemma StepIsSame(maxSlots: nat, w: World, m: Manager.World, a: Action)
    requires SameCalls(w, m) && Exclusive(w, a)
    ensures ByName(w, a) == [] ==> SameCalls(Next(maxSlots, w, a), m)
    ensures ByName(w, a) != [] ==>
      ByName(w, a) == [ByName(w, a)[0]] && SameCalls(Next(maxSlots, w, a), Manager.Next(maxSlots, m, ByName(w, a)[0]))
  {
    match a
    case Create(id, n, valid) => if id !in w.calls { BegunIsSame(w, m, id, n, Manager.Check(valid)); }
    case Destroy(id, n) => if id !in w.calls { BegunIsSame(w, m, id, n, Manager.Find); }
    case Go(id, ok) => if id in w.calls { TakenIsSame(maxSlots, w, m, id, ok); }
  }

  /** A run that begins no second call for a name is a run by names, so all that is proved of those holds. */
  lemma {:induction false} ExclusiveRefines(maxSlots: nat, steps: seq<Action>)
    requires ExclusiveRun(maxSlots, steps)
    ensures SameCalls(Run(maxSlots, steps), Manager.Run(maxSlots, NamedSteps(maxSlots, steps)))
  {
    if steps != [] {
      var init, a := steps[..|steps| - 1], steps[|steps| - 1];
      ExclusiveRefines(maxSlots, init);
      var w, named := Run(maxSlots, init), NamedSteps(maxSlots, init);
      StepIsSame(maxSlots, w, Manager.Run(maxSlots, named), a);
      if ByName(w, a) == [] {
        assert named + ByName(w, a) == named;
      } else {
        NamedSnoc(maxSlots, named, ByName(w, a)[0]);
      }
    }
  }

  /** At rest, such a run leaves every slot in use to exactly one record. */
  lemma ExclusiveNeverLeaks(maxSlots: nat, steps: seq<Action>, k: int)
    requires ExclusiveRun(maxSlots, steps) && Run(maxSlots, steps).calls == map[]
    ensures var db := Run(maxSlots, steps).db;
      k in db.used <==> exists n :: n in db.instances && db.instances[n].ports.slotIndex == k
  {
    var named := NamedSteps(maxSlots, steps);
    ExclusiveRefines(maxSlots, steps);
    var m := Manager.Run(maxSlots, named);
    assert m.calls == map[];
    Manager.QuiescentSlots(maxSlots, named);
    if k in m.db.used {
      var n :| n in m.db.instances && Manager.SlotOf(m, n) == k;
      assert m.db.instances[n].ports.slotIndex == k;
    }
    if n :| n in m.db.instances && m.db.instances[n].ports.slotIndex == k {
      assert Manager.SlotOf(m, n) in m.db.used;
    }
  }

  // ---- Without the exclusion ----

  ghost predicate Reaches(maxSlots: nat, steps: seq<Action>, w: World) {
    Run(maxSlots, steps) == w
  }

  lemma ThenReaches(maxSlots: nat, steps: seq<Action>, w: World, a: Action)
    requires Reaches(maxSlots, steps, w)
    ensures Reaches(maxSlots, steps + [a], Next(maxSlots, w, a))
  {
    assert (steps + [a])[..|steps|] == steps;
  }

  /** Two calls besides those of `w`. */
  function Pair(w: World, db: Manager.Db, a: nat, ca: Call, b: nat, cb: Call): World {
    World(db, w.calls[a := ca][b := cb])
  }

  lemma FirstGoes(maxSlots: nat, steps: seq<Action>, w: World, db: Manager.Db, a: nat, ca: Call, b: nat, cb: Call)
    requires a != b && Reaches(maxSlots, steps, Pair(w, db, a, ca, b, cb))
    requires Manager.Step(maxSlots, db, ca.name, ca.pc, true).next.Some?
    ensures var r := Manager.Step(maxSlots, db, ca.name, ca.pc, true);
      Reaches(maxSlots, steps + [Go(a, true)], Pair(w, r.db, a, Call(ca.name, r.next.value), b, cb))
  {
    var v, r := Pair(w, db, a, ca, b, cb), Manager.Step(maxSlots, db, ca.name, ca.pc, true);
    ThenReaches(maxSlots, steps, v, Go(a, true));
    assert Next(maxSlots, v, Go(a, true)) == Pair(w, r.db, a, Call(ca.name, r.next.value), b, cb);
  }

  lemma SecondGoes(maxSlots: nat, steps: seq<Action>, w: World, db: Manager.Db, a: nat, ca: Call, b: nat, cb: Call)
    requires a != b && Reaches(maxSlots, steps, Pair(w, db, a, ca, b, cb))
    requires Manager.Step(maxSlots, db, cb.name, cb.pc, true).next.Some?
    ensures var r := Manager.Step(maxSlots, db, cb.name, cb.pc, true);
      Reaches(maxSlots, steps + [Go(b, true)], Pair(w, r.db, a, ca, b, Call(cb.name, r.next.value)))
  {
    var v, r := Pair(w, db, a, ca, b, cb), Manager.Step(maxSlots, db, cb.name, cb.pc, true);
    ThenReaches(maxSlots, steps, v, Go(b, true));
    assert Next(maxSlots, v, Go(b, true)) == Pair(w, r.db, a, ca, b, Call(cb.name, r.next.value));
  }

  lemma FirstEnds(maxSlots: nat, steps: seq<Action>, w: World, db: Manager.Db, a: nat, ca: Call, b: nat, cb: Call)
    requires a != b && a !in w.calls && Reaches(maxSlots, steps, Pair(w, db, a, ca, b, cb))
    requires Manager.Step(maxSlots, db, ca.name, ca.pc, true).next.None?
    ensures Reaches(maxSlots, steps + [Go(a, true)],
                    World(Manager.Step(maxSlots, db, ca.name, ca.pc, true).db, w.calls[b := cb]))
  {
    var v := Pair(w, db, a, ca, b, cb);
    ThenReaches(maxSlots, steps, v, Go(a, true));
    assert Next(maxSlots, v, Go(a, true)).calls == w.calls[b := cb];
  }

  lemma SecondEnds(maxSlots: nat, steps: seq<Action>, w: World, db: Manager.Db, a: nat, ca: Call, b: nat, cb: Call)
    requires a != b && b !in w.calls && Reaches(maxSlots, steps, Pair(w, db, a, ca, b, cb))
    requires Manager.Step(maxSlots, db, cb.name, cb.pc, true).next.None?
    ensures Reaches(maxSlots, steps + [Go(b, true)],
                    World(Manager.Step(maxSlots, db, cb.name, cb.pc, true).db, w.calls[a := ca]))
  {
    var v := Pair(w, db, a, ca, b, cb);
    ThenReaches(maxSlots, steps, v, Go(b, true));
    assert Next(maxSlots, v, Go(b, true)).calls == w.calls[a := ca];
  }

  lemma OneEnds(maxSlots: nat, steps: seq<Action>, w: World, db: Manager.Db, a: nat, ca: Call)
    requires a !in w.calls && Reaches(maxSlots, steps, World(db, w.calls[a := ca]))
    requires Manager.Step(maxSlots, db, ca.name, ca.pc, true).next.None?
    ensures Reaches(maxSlots, steps + [Go(a, true)],
                    World(Manager.Step(maxSlots, db, ca.name, ca.pc, true).db, w.calls))
  {
    var v := World(db, w.calls[a := ca]);
    ThenReaches(maxSlots, steps, v, Go(a, true));
    assert Next(maxSlots, v, Go(a, true)).calls == w.calls;
  }

  lemma BothBegin(maxSlots: nat, steps: seq<Action>, w: World, n: string, a: nat, b: nat) returns (run: seq<Action>)
    requires Reaches(maxSlots, steps, w) && a != b && a !in w.calls && b !in w.calls
    ensures steps <= run
    ensures Reaches(maxSlots, run,
                    Pair(w, w.db, a, Call(n, Manager.Check(true)), b, Call(n, Manager.Check(true))))
  {
    ThenReaches(maxSlots, steps, w, Create(a, n, true));
    run := steps + [Create(a, n, true)];
    ThenReaches(maxSlots, run, Next(maxSlots, w, Create(a, n, true)), Create(b, n, true));
    run := run + [Create(b, n, true)];
  }

  /** Both pass the check and take a slot each. */
  lemma BothAllocate(maxSlots: nat, steps: seq<Action>, w: World, n: string, a: nat, b: nat, k: int, leaked: int)
    returns (run: seq<Action>)
    requires a != b && n !in w.db.instances && TwoFree(maxSlots, w.db.used, k, leaked)
    requires Reaches(maxSlots, steps,
                     Pair(w, w.db, a, Call(n, Manager.Check(true)), b, Call(n, Manager.Check(true))))
    ensures steps <= run
    ensures Reaches(maxSlots, run, Pair(w, w.db.(used := w.db.used + {k} + {leaked}),
                                        a, Call(n, Manager.StoreRecord(k)), b, Call(n, Manager.StoreRecord(leaked))))
  {
    var check, allocate := Call(n, Manager.Check(true)), Call(n, Manager.Allocate);
    FirstGoes(maxSlots, steps, w, w.db, a, check, b, check);
    run := steps + [Go(a, true)];
    SecondGoes(maxSlots, run, w, w.db, a, allocate, b, check);
    run := run + [Go(b, true)];
    FirstGoes(maxSlots, run, w, w.db, a, allocate, b, allocate);
    run := run + [Go(a, true)];
    SecondGoes(maxSlots, run, w, w.db.(used := w.db.used + {k}), a, Call(n, Manager.StoreRecord(k)), b, allocate);
    run := run + [Go(b, true)];
  }

  /** The two slots the allocator hands out next. */
  predicate TwoFree(maxSlots: nat, used: set<int>, k: int, leaked: int) {
    LowestFree(used, maxSlots, 0) == k < maxSlots && LowestFree(used + {k}, maxSlots, 0) == leaked < maxSlots
  }

  /** The first stores its record and starts; the second fails to store, outside its clean-up. */
  lemma OneStores(maxSlots: nat, steps: seq<Action>, w: World, db: Manager.Db, n: string, a: nat, b: nat,
                  k: int, leaked: int) returns (run: seq<Action>)
    requires a != b && a !in w.calls && b !in w.calls && n !in db.instances
    requires Reaches(maxSlots, steps,
                     Pair(w, db, a, Call(n, Manager.StoreRecord(k)), b, Call(n, Manager.StoreRecord(leaked))))
    ensures steps <= run
    ensures Reaches(maxSlots, run,
                    World(db.(instances := db.instances[n := Record(Running, SlotAt(k))]), w.calls))
  {
    var late := Call(n, Manager.StoreRecord(leaked));
    FirstGoes(maxSlots, steps, w, db, a, Call(n, Manager.StoreRecord(k)), b, late);
    run := steps + [Go(a, true)];
    var stored := db.(instances := db.instances[n := Record(Creating, SlotAt(k))]);
    SecondEnds(maxSlots, run, w, stored, a, Call(n, Manager.Launch(k)), b, late);
    run := run + [Go(b, true)];
    OneEnds(maxSlots, run, w, stored, a, Call(n, Manager.Launch(k)));
    run := run + [Go(a, true)];
    assert stored.instances[n := Record(Running, SlotAt(k))] == db.instances[n := Record(Running, SlotAt(k))];
  }

  /**
   * After any run, two creates for one name that both pass the check before either stores its
   * record: one instance runs, and the other call has ended with its slot in use and no record.
   */
  lemma ConcurrentCreatesLeak(maxSlots: nat, steps: seq<Action>, n: string, a: nat, b: nat, k: int, leaked: int)
    returns (run: seq<Action>)
    requires var w := Run(maxSlots, steps);
      a != b && a !in w.calls && b !in w.calls && n !in w.db.instances && TwoFree(maxSlots, w.db.used, k, leaked)
    ensures steps <= run
    ensures var w := Run(maxSlots, steps);
      Run(maxSlots, run) == World(Manager.Db(w.db.used + {k} + {leaked},
                                             w.db.instances[n := Record(Running, SlotAt(k))]), w.calls)
  {
    var w := Run(maxSlots, steps);
    run := BothBegin(maxSlots, steps, w, n, a, b);
    run := BothAllocate(maxSlots, run, w, n, a, b, k, leaked);
    run := OneStores(maxSlots, run, w, w.db.(used := w.db.used + {k} + {leaked}), n, a, b, k, leaked);
  }

  /** From the start and at rest again: slot 1 is in use and no record has it. */
  lemma SlotLeaks(maxSlots: nat, n: string) returns (run: seq<Action>)
    requires 2 <= maxSlots
    ensures var w := Run(maxSlots, run);
      && w.calls == map[] && 1 in w.db.used
      && forall m :: m in w.db.instances ==> w.db.instances[m].ports.slotIndex != 1
  {
    assert LowestFree({}, maxSlots, 0) == 0;
    assert LowestFree({} + {0}, maxSlots, 0) == 1;
    run := ConcurrentCreatesLeak(maxSlots, [], n, 0, 1, 0, 1);
  }

  // ---- Two destroys of one name ----

  /** Both destroys have marked the record before either goes on. */
  lemma BothMark(maxSlots: nat, steps: seq<Action>, w: World, n: string, a: nat, b: nat, k: int)
    returns (run: seq<Action>)
    requires Reaches(maxSlots, steps, w) && a != b && a !in w.calls && b !in w.calls
    requires n in w.db.instances && w.db.instances[n].ports == SlotAt(k)
    ensures steps <= run
    ensures var p := SlotAt(k).consolePort;
      Reaches(maxSlots, run, Pair(w, Manager.WithState(w.db, n, Destroying),
                                  a, Call(n, Manager.Shutdown(p)), b, Call(n, Manager.Shutdown(p))))
  {
    var find, mark := Call(n, Manager.Find), Call(n, Manager.MarkDestroying(SlotAt(k).consolePort));
    var shutdown := Call(n, Manager.Shutdown(SlotAt(k).consolePort));
    ThenReaches(maxSlots, steps, w, Destroy(a, n));
    run := steps + [Destroy(a, n)];
    ThenReaches(maxSlots, run, Next(maxSlots, w, Destroy(a, n)), Destroy(b, n));
    run := run + [Destroy(b, n)];
    FirstGoes(maxSlots, run, w, w.db, a, find, b, find);
    run := run + [Go(a, true)];
    SecondGoes(maxSlots, run, w, w.db, a, mark, b, find);
    run := run + [Go(b, true)];
    FirstGoes(maxSlots, run, w, w.db, a, mark, b, mark);
    run := run + [Go(a, true)];
    var marked := Manager.WithState(w.db, n, Destroying);
    SecondGoes(maxSlots, run, w, marked, a, shutdown, b, mark);
    run := run + [Go(b, true)];
    assert Manager.WithState(marked, n, Destroying) == marked;
  }

  /** The first destroy runs to its end, freeing the slot. */
  lemma OneDestroys(maxSlots: nat, steps: seq<Action>, w: World, n: string, a: nat, b: nat, k: int)
    returns (run: seq<Action>)
    requires a != b && a !in w.calls && n in w.db.instances
    requires var p := SlotAt(k).consolePort;
      Reaches(maxSlots, steps, Pair(w, Manager.WithState(w.db, n, Destroying),
                                    a, Call(n, Manager.Shutdown(p)), b, Call(n, Manager.Shutdown(p))))
    ensures steps <= run
    ensures Reaches(maxSlots, run, World(Manager.Db(w.db.used - {k}, w.db.instances - {n}),
                                         w.calls[b := Call(n, Manager.Shutdown(SlotAt(k).consolePort))]))
  {
    var p := SlotAt(k).consolePort;
    var marked, late := Manager.WithState(w.db, n, Destroying), Call(n, Manager.Shutdown(p));
    SlotOfConsolePort(k);
    FirstGoes(maxSlots, steps, w, marked, a, late, b, late);
    run := steps + [Go(a, true)];
    FirstGoes(maxSlots, run, w, marked, a, Call(n, Manager.ReleasePort(p)), b, late);
    run := run + [Go(a, true)];
    var freed := marked.(used := w.db.used - {k});
    FirstEnds(maxSlots, run, w, freed, a, Call(n, Manager.RemoveDestroyed), b, late);
    run := run + [Go(a, true)];
    assert freed.instances - {n} == w.db.instances - {n};
  }

  /** Another name is created on the lowest free slot while a call `b` stands still. */
  lemma OtherCreates(maxSlots: nat, steps: seq<Action>, w: World, db: Manager.Db, m: string, b: nat, cb: Call, c: nat,
                     k: int) returns (run: seq<Action>)
    requires b != c && c !in w.calls && m !in db.instances && LowestFree(db.used, maxSlots, 0) == k < maxSlots
    requires Reaches(maxSlots, steps, World(db, w.calls[b := cb]))
    ensures steps <= run
    ensures Reaches(maxSlots, run, World(Manager.Db(db.used + {k}, db.instances[m := Record(Running, SlotAt(k))]),
                                         w.calls[b := cb]))
  {
    ThenReaches(maxSlots, steps, World(db, w.calls[b := cb]), Create(c, m, true));
    run := steps + [Create(c, m, true)];
    SecondGoes(maxSlots, run, w, db, b, cb, c, Call(m, Manager.Check(true)));
    run := run + [Go(c, true)];
    SecondGoes(maxSlots, run, w, db, b, cb, c, Call(m, Manager.Allocate));
    run := run + [Go(c, true)];
    var taken := db.(used := db.used + {k});
    SecondGoes(maxSlots, run, w, taken, b, cb, c, Call(m, Manager.StoreRecord(k)));
    run := run + [Go(c, true)];
    var stored := taken.(instances := db.instances[m := Record(Creating, SlotAt(k))]);
    SecondEnds(maxSlots, run, w, stored, b, cb, c, Call(m, Manager.Launch(k)));
    run := run + [Go(c, true)];
    assert stored.instances[m := Record(Running, SlotAt(k))] == db.instances[m := Record(Running, SlotAt(k))];
  }

  lemma OneGoes(maxSlots: nat, steps: seq<Action>, w: World, db: Manager.Db, a: nat, ca: Call)
    requires Reaches(maxSlots, steps, World(db, w.calls[a := ca]))
    requires Manager.Step(maxSlots, db, ca.name, ca.pc, true).next.Some?
    ensures var r := Manager.Step(maxSlots, db, ca.name, ca.pc, true);
      Reaches(maxSlots, steps + [Go(a, true)], World(r.db, w.calls[a := Call(ca.name, r.next.value)]))
  {
    var v, r := World(db, w.calls[a := ca]), Manager.Step(maxSlots, db, ca.name, ca.pc, true);
    ThenReaches(maxSlots, steps, v, Go(a, true));
    assert Next(maxSlots, v, Go(a, true)) == World(r.db, w.calls[a := Call(ca.name, r.next.value)]);
  }

  /** The second destroy goes on by the port it remembers. */
  lemma LateDestroyFrees(maxSlots: nat, steps: seq<Action>, w: World, db: Manager.Db, n: string, b: nat, k: int)
    returns (run: seq<Action>)
    requires b !in w.calls && n !in db.instances
    requires Reaches(maxSlots, steps, World(db, w.calls[b := Call(n, Manager.Shutdown(SlotAt(k).consolePort))]))
    ensures steps <= run
    ensures Reaches(maxSlots, run, World(db.(used := db.used - {k}), w.calls))
  {
    var p := SlotAt(k).consolePort;
    SlotOfConsolePort(k);
    OneGoes(maxSlots, steps, w, db, b, Call(n, Manager.Shutdown(p)));
    run := steps + [Go(b, true)];
    OneGoes(maxSlots, run, w, db, b, Call(n, Manager.ReleasePort(p)));
    run := run + [Go(b, true)];
    var freed := db.(used := db.used - {k});
    OneEnds(maxSlots, run, w, freed, b, Call(n, Manager.RemoveDestroyed));
    run := run + [Go(b, true)];
    assert freed.instances - {n} == freed.instances;
  }

  /**
   * After any run, two destroys of one name that overlap a create of another: the second frees,
   * by the port it remembers, the slot that the new instance runs on, so the allocator will
   * hand out its ports again.
   */
  lemma ConcurrentDestroysFreeAnother(maxSlots: nat, steps: seq<Action>, n: string, m: string, a: nat, b: nat, c: nat,
                                      k: int) returns (run: seq<Action>)
    requires var w := Run(maxSlots, steps);
      && a != b && b != c && a !in w.calls && b !in w.calls && c !in w.calls
      && n in w.db.instances && w.db.instances[n].ports == SlotAt(k) && m !in w.db.instances
      && LowestFree(w.db.used - {k}, maxSlots, 0) == k < maxSlots
    ensures steps <= run
    ensures var w := Run(maxSlots, steps);
      Run(maxSlots, run) == World(Manager.Db(w.db.used - {k},
                                             (w.db.instances - {n})[m := Record(Running, SlotAt(k))]), w.calls)
  {
    var w := Run(maxSlots, steps);
    run := BothMark(maxSlots, steps, w, n, a, b, k);
    run := OneDestroys(maxSlots, run, w, n, a, b, k);
    var db := Manager.Db(w.db.used - {k}, w.db.instances - {n});
    var late := Call(n, Manager.Shutdown(SlotAt(k).consolePort));
    run := OtherCreates(maxSlots, run, w, db, m, b, late, c, k);
    var db' := Manager.Db(db.used + {k}, db.instances[m := Record(Running, SlotAt(k))]);
    run := LateDestroyFrees(maxSlots, run, w, db', n, b, k);
    assert db'.used - {k} == w.db.used - {k};
  }

  /**
   * What calls make of a record or slot that an overlapping call took away: a destroy that can no
   * longer mark ends, a create that can no longer run goes on to release its slot, and one
   * whose slot is free already ends and leaves its record.
   */
  lemma LateCalls(maxSlots: nat, steps: seq<Action>, id: nat, ok: bool)
    requires id in Run(maxSlots, steps).calls
    ensures var w, w' := Run(maxSlots, steps), Run(maxSlots, steps + [Go(id, ok)]);
      var call := w.calls[id];
      && (call.pc.MarkDestroying? && call.name !in w.db.instances ==> w' == World(w.db, w.calls - {id}))
      && (call.pc.Launch? && call.name !in w.db.instances ==>
            w' == World(w.db, w.calls[id := Call(call.name, Manager.ReleaseSlot(call.pc.launched))]))
      && (call.pc.ReleaseSlot? && call.pc.failed !in w.db.used ==> w' == World(w.db, w.calls - {id}))
  {
    ThenReaches(maxSlots, steps, Run(maxSlots, steps), Go(id, ok));
  }
}
