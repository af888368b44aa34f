/**
 * The sync protocol over whole runs: appends to the supervisor's log interleaved with polls of
 * the phone that succeed or fail.  Its cursor behaviour is that of `SyncCore`.
 */
module SyncProtocol {
  import opened Wrappers
  import opened Events
  import opened EventLog
  import opened BitmapCaches
  import opened Conversations
  import opened EventProcessing
  import opened Connectivity
  import Client = SyncClient
  import opened SyncCore
  import opened SyncCatchUp
  import opened CacheRoom

  /** The log and the client, with the two histories of `SyncCore.Core`. */
  datatype World = World(log: seq<Event>, client: Client.Client, delivered: nat, processed: seq<Event>)

  const START := World(SEED, Client.FRESH_CLIENT, 0, [])

  datatype Step = Append(event: Event) | PollSucceeds | PollFails

  function CoreOf(w: World): Core {
    Core(StableSort(w.log), w.client.since, w.client.batch.maxCount, w.client.monitor.state == Connected,
         w.delivered, w.processed)
  }

  function Next(cfg: Config, w: World, step: Step): World {
    if step.Append? then w.(log := w.log + [step.event])
    else if step.PollFails? then w.(client := Client.Failed(w.client))
    else
      var page := Client.NextPage(w.log, w.client);
      World(w.log, Client.Received(cfg, w.client, page),
            Max(w.delivered, LowerBound(StableSort(w.log), w.client.since) + |page|), w.processed + page)
  }

  function CoreNext(c: Core, step: Step): Core {
    if step.Append? then Appended(c, step.event)
    else if step.PollFails? then Failed(c)
    else Polled(c)
  }

  lemma SortedAppend(log: seq<Event>, e: Event)
    ensures StableSort(log + [e]) == Insert(StableSort(log), e)
  {
    assert (log + [e])[..|log|] == log;
  }

  lemma AppendRefinesCore(cfg: Config, w: World, e: Event)
    ensures CoreOf(Next(cfg, w, Append(e))) == Appended(CoreOf(w), e)
  {
    SortedAppend(w.log, e);
  }

  lemma PollRefinesCore(cfg: Config, w: World)
    ensures CoreOf(Next(cfg, w, PollSucceeds)) == Polled(CoreOf(w))
  {
  }

  lemma FailureRefinesCore(cfg: Config, w: World)
    ensures CoreOf(Next(cfg, w, PollFails)) == SyncCore.Failed(CoreOf(w))
  {
  }

  /** Seen through `CoreOf`, every step of the world is a step of the core. */
  lemma StepRefinesCore(cfg: Config, w: World, step: Step)
    ensures CoreOf(Next(cfg, w, step)) == CoreNext(CoreOf(w), step)
  {
    if step.Append? {
      AppendRefinesCore(cfg, w, step.event);
    } else if step.PollFails? {
      FailureRefinesCore(cfg, w);
    } else {
      PollRefinesCore(cfg, w);
    }
  }

  /** The environment never adds an event behind the client's cursor. */
  predicate Allowed(w: World, step: Step) {
    step.Append? ==> w.client.since <= step.event.ts
  }

  function Run(cfg: Config, steps: seq<Step>): World {
    if steps == [] then START else Next(cfg, Run(cfg, steps[..|steps| - 1]), steps[|steps| - 1])
  }

  predicate AllowedRun(cfg: Config, steps: seq<Step>) {
    steps != [] ==>
      AllowedRun(cfg, steps[..|steps| - 1]) && Allowed(Run(cfg, steps[..|steps| - 1]), steps[|steps| - 1])
  }

  lemma RunSnoc(cfg: Config, steps: seq<Step>, step: Step)
    ensures Run(cfg, steps + [step]) == Next(cfg, Run(cfg, steps), step)
    ensures AllowedRun(cfg, steps + [step]) <==> AllowedRun(cfg, steps) && Allowed(Run(cfg, steps), step)
  {
    assert (steps + [step])[..|steps|] == steps;
  }

  // ---- No loss ----

  lemma StartInv()
    ensures Inv(CoreOf(START))
  {
    StableSortSorts(SEED);
    assert Sorted(SEED);
    SortedLogIsFixed(SEED);
    LowerBoundIs(SEED, 0, 0);
  }

  lemma CoreStepKeepsInv(c: Core, step: Step)
    requires Inv(c) && (step.Append? ==> c.since <= step.event.ts)
    ensures Inv(CoreNext(c, step))
    ensures c.since <= CoreNext(c, step).since && c.delivered <= CoreNext(c, step).delivered
    ensures CoreNext(c, step).sorted[..c.delivered] == c.sorted[..c.delivered]
  {
    if step.Append? {
      AppendAdvances(c, step.event);
    } else if step.PollSucceeds? {
      PollAdvances(c);
      PolledIs(c);
    }
  }

  /**
   * No loss.  In every allowed run the delivered events are a prefix of the stable sort of the
   * log, and the cursor is the timestamp of the last of them.
   */
  lemma {:induction false} NoLoss(cfg: Config, steps: seq<Step>)
    requires AllowedRun(cfg, steps)
    ensures Inv(CoreOf(Run(cfg, steps)))
  {
    if steps == [] {
      StartInv();
    } else {
      var init, step := steps[..|steps| - 1], steps[|steps| - 1];
      NoLoss(cfg, init);
      StepRefinesCore(cfg, Run(cfg, init), step);
      CoreStepKeepsInv(CoreOf(Run(cfg, init)), step);
    }
  }

  /** The later core has everything the earlier one delivered, in place, and a cursor no lower. */
  ghost predicate Ahead(c: Core, c': Core) {
    && c.since <= c'.since && c.delivered <= c'.delivered
    && c.delivered <= |c.sorted| && c'.delivered <= |c'.sorted|
    && c'.sorted[..c.delivered] == c.sorted[..c.delivered]
  }

  lemma AheadTransitive(a: Core, b: Core, c: Core)
    requires Ahead(a, b) && Ahead(b, c)
    ensures Ahead(a, c)
  {
    PrefixOfPrefix(c.sorted, b.sorted, b.delivered, a.delivered);
  }

  lemma {:induction false} Progress(cfg: Config, steps: seq<Step>, n: nat)
    requires AllowedRun(cfg, steps) && n <= |steps|
    ensures Ahead(CoreOf(Run(cfg, steps[..n])), CoreOf(Run(cfg, steps)))
  {
    if n == |steps| {
      assert steps[..n] == steps;
      NoLoss(cfg, steps);
    } else {
      var init, step := steps[..|steps| - 1], steps[|steps| - 1];
      assert init[..n] == steps[..n];
      Progress(cfg, init, n);
      NoLoss(cfg, init);
      StepRefinesCore(cfg, Run(cfg, init), step);
      CoreStepKeepsInv(CoreOf(Run(cfg, init)), step);
      AheadTransitive(CoreOf(Run(cfg, steps[..n])), CoreOf(Run(cfg, init)), CoreOf(Run(cfg, steps)));
    }
  }

  /** Every delivered event has been processed, as many times as it occurs or more. */
  lemma {:induction false} AtLeastOnce(cfg: Config, steps: seq<Step>)
    requires AllowedRun(cfg, steps)
    ensures DeliveredWasProcessed(CoreOf(Run(cfg, steps)))
  {
    if steps != [] {
      var init, step := steps[..|steps| - 1], steps[|steps| - 1];
      var c := CoreOf(Run(cfg, init));
      NoLoss(cfg, init);
      AtLeastOnce(cfg, init);
      StepRefinesCore(cfg, Run(cfg, init), step);
      if step.Append? {
        AppendAdvances(c, step.event);
      } else if step.PollSucceeds? {
        PollProcessesDelivered(c);
      }
    }
  }

  /** And nothing else was: every event processed has been delivered. */
  lemma {:induction false} NothingInvented(cfg: Config, steps: seq<Step>)
    requires AllowedRun(cfg, steps)
    ensures ProcessedWasDelivered(CoreOf(Run(cfg, steps)))
    ensures AllFrom(Run(cfg, steps).processed, Run(cfg, steps).log)
  {
    var w := Run(cfg, steps);
    if steps != [] {
      var init, step := steps[..|steps| - 1], steps[|steps| - 1];
      var c := CoreOf(Run(cfg, init));
      NoLoss(cfg, init);
      NothingInvented(cfg, init);
      StepRefinesCore(cfg, Run(cfg, init), step);
      if step.Append? {
        AppendAdvances(c, step.event);
      } else if step.PollSucceeds? {
        PollInventsNothing(c);
      }
    }
    DeliveredIsLogged(w.log, w.delivered, w.processed);
  }

  lemma AllFromPrefix(es: seq<Event>, s: seq<Event>, n: nat, log: seq<Event>)
    requires n <= |s| && AllFrom(es, s[..n]) && multiset(s) == multiset(log)
    ensures AllFrom(es, log)
  {
    assert s == s[..n] + s[n..];
  }

  lemma DeliveredIsLogged(log: seq<Event>, n: nat, processed: seq<Event>)
    requires n <= |log| && AllFrom(processed, StableSort(log)[..n])
    ensures AllFrom(processed, log)
  {
    StableSortPermutes(log);
    AllFromPrefix(processed, StableSort(log), n, log);
  }

  lemma {:induction false} ViewIsWhatWasProcessed(cfg: Config, steps: seq<Step>)
    ensures Run(cfg, steps).client.view == ProcessAll(cfg, EMPTY_VIEW, Run(cfg, steps).processed)
  {
    if steps != [] {
      var w := Run(cfg, steps[..|steps| - 1]);
      ViewIsWhatWasProcessed(cfg, steps[..|steps| - 1]);
      if steps[|steps| - 1].PollSucceeds? {
        ProcessConcat(cfg, EMPTY_VIEW, w.processed, Client.NextPage(w.log, w.client));
      }
    }
  }

  // ---- Convergence ----

  lemma {:induction false} RegisterInRun(cfg: Config, steps: seq<Step>, r: Register) returns (k: nat)
    requires AllowedRun(cfg, steps)
    ensures RegisterWithin(CoreOf(Run(cfg, steps)), r, k)
  {
    if steps == [] {
      StartInv();
      k := 0;
    } else {
      var init, step := steps[..|steps| - 1], steps[|steps| - 1];
      var c := CoreOf(Run(cfg, init));
      NoLoss(cfg, init);
      k := RegisterInRun(cfg, init, r);
      StepRefinesCore(cfg, Run(cfg, init), step);
      if step.Append? {
        AppendKeepsRegister(c, step.event, r, k);
      } else if step.PollSucceeds? {
        PollUpdatesRegister(c, r, k);
        k := Reflected(c, r, k);
      }
    }
  }

  /** At every point of a run and for every prefix a register may reflect, exactly when the next poll sets it back. */
  lemma RegisterSetBackIff(cfg: Config, steps: seq<Step>, r: Register, k: nat)
    requires AllowedRun(cfg, steps) && RegisterWithin(CoreOf(Run(cfg, steps)), r, k)
    ensures var c, w := CoreOf(Run(cfg, steps)), Run(cfg, steps + [PollSucceeds]);
      Reflected(c, r, k) < k && ValueIn(w.processed, r) != ValueIn(c.processed, r)
      <==> End(c) < k && LastWriter(PageOf(c), r).Some?
           && 0 <= End(c) && k <= |c.sorted| && LastWriter(c.sorted[End(c)..k], r).Some?
           && ValueIn(c.sorted[End(c)..k], r) != ValueIn(PageOf(c), r)
  {
    NoLoss(cfg, steps);
    SetsBackIff(CoreOf(Run(cfg, steps)), r, k);
    RunSnoc(cfg, steps, PollSucceeds);
    StepRefinesCore(cfg, Run(cfg, steps), PollSucceeds);
  }

  /** While no timestamp is shared by more than five events of the log, no register is ever set back. */
  lemma FiveAStampNeverSetBack(cfg: Config, steps: seq<Step>, r: Register, k: nat)
    requires AllowedRun(cfg, steps) && RegisterWithin(CoreOf(Run(cfg, steps)), r, k)
    requires FiveAStamp(Run(cfg, steps).log)
    ensures k <= Reflected(CoreOf(Run(cfg, steps)), r, k) && !SetsBack(CoreOf(Run(cfg, steps)), r, k)
  {
    var w := Run(cfg, steps);
    NoLoss(cfg, steps);
    SortKeepsFive(w.log);
    FiveAStampKeepsRegister(CoreOf(w), r, k);
  }

  /** The run ends with a poll that returned fewer events than it asked for. */
  predicate EndsWithShortPage(cfg: Config, steps: seq<Step>) {
    && steps != [] && steps[|steps| - 1].PollSucceeds?
    && var c := CoreOf(Run(cfg, steps[..|steps| - 1]));
       |PageOf(c)| < c.maxCount
  }

  lemma RegistersConverge(cfg: Config, steps: seq<Step>, r: Register)
    requires AllowedRun(cfg, steps) && EndsWithShortPage(cfg, steps)
    ensures var w := Run(cfg, steps);
      && w.delivered == |StableSort(w.log)|
      && LastWriter(w.processed, r) == LastWriter(StableSort(w.log), r)
  {
    var init := steps[..|steps| - 1];
    var c := CoreOf(Run(cfg, init));
    NoLoss(cfg, init);
    var k := RegisterInRun(cfg, init, r);
    StepRefinesCore(cfg, Run(cfg, init), PollSucceeds);
    ShortPageReflectsAll(c, r, k);
    assert CoreOf(Run(cfg, steps)) == Polled(c);
  }

  /**
   * Convergence despite redelivery.  Whenever a poll returns fewer events than it asked for,
   * everything is delivered, the display key is that of the last display command in the
   * sorted log, and every cached key holds its last payload.
   */
  lemma Convergence(cfg: Config, steps: seq<Step>, k: string)
    requires AllowedRun(cfg, steps) && EndsWithShortPage(cfg, steps)
    ensures var w := Run(cfg, steps);
      && w.delivered == |StableSort(w.log)|
      && w.client.view.displayKey == DisplayKeyIn(StableSort(w.log))
      && (Find(w.client.view.cache, k).Some? ==> Find(w.client.view.cache, k) == BitmapIn(StableSort(w.log), k))
  {
    var w := Run(cfg, steps);
    ViewIsWhatWasProcessed(cfg, steps);
    RegistersConverge(cfg, steps, Display);
    ProcessedDisplay(cfg, w.processed);
    CachedIsLastPayload(cfg, w.processed, k);
    RegistersConverge(cfg, steps, Cached(k));
  }

  /** If moreover nothing was ever evicted, every key in the log is cached with its last payload. */
  lemma UnevictedCacheConverges(cfg: Config, steps: seq<Step>, k: string)
    requires AllowedRun(cfg, steps) && EndsWithShortPage(cfg, steps)
    requires NeverEvicts(cfg, Run(cfg, steps).processed)
    ensures Find(Run(cfg, steps).client.view.cache, k) == BitmapIn(StableSort(Run(cfg, steps).log), k)
  {
    ViewIsWhatWasProcessed(cfg, steps);
    NothingEvictedNothingMissing(cfg, Run(cfg, steps).processed, k);
    RegistersConverge(cfg, steps, Cached(k));
  }

  /** And nothing ever is when the budgets have room for the largest bitmap of every key in the log. */
  lemma CacheConverges(cfg: Config, steps: seq<Step>, k: string)
    requires AllowedRun(cfg, steps) && EndsWithShortPage(cfg, steps) && Roomy(cfg, Run(cfg, steps).log)
    ensures Find(Run(cfg, steps).client.view.cache, k) == BitmapIn(StableSort(Run(cfg, steps).log), k)
  {
    RoomNeverBinds(cfg, steps);
    UnevictedCacheConverges(cfg, steps, k);
  }

  lemma RoomNeverBinds(cfg: Config, steps: seq<Step>)
    requires AllowedRun(cfg, steps) && Roomy(cfg, Run(cfg, steps).log)
    ensures NeverEvicts(cfg, Run(cfg, steps).processed)
  {
    NothingInvented(cfg, steps);
    RoomyNeverEvicts(cfg, Run(cfg, steps).log, Run(cfg, steps).processed);
  }

  /** The display key is a register, and so is each cached bitmap that is still held. */
  lemma ViewShowsRegisters(cfg: Config, steps: seq<Step>, k: string)
    ensures var w := Run(cfg, steps);
      && (w.client.view.displayKey.Some? <==> ValueIn(w.processed, Display).Some?)
      && (w.client.view.displayKey.Some? ==> ValueIn(w.processed, Display) == Some(Key(w.client.view.displayKey.value)))
      && (Find(w.client.view.cache, k).Some? ==>
            ValueIn(w.processed, Cached(k)) == Some(Image(Find(w.client.view.cache, k).value)))
  {
    ViewIsWhatWasProcessed(cfg, steps);
    ProcessedDisplay(cfg, Run(cfg, steps).processed);
    CachedIsLastPayload(cfg, Run(cfg, steps).processed, k);
  }

  // ---- Catch-up after appends stop ----

  function PollTimes(cfg: Config, w: World, n: nat): World
    decreases n
  {
    if n == 0 then w else PollTimes(cfg, Next(cfg, w, PollSucceeds), n - 1)
  }

  lemma {:induction false} PollTimesRefines(cfg: Config, w: World, n: nat)
    ensures CoreOf(PollTimes(cfg, w, n)) == Polls(CoreOf(w), n)
    decreases n
  {
    if n > 0 {
      var w' := Next(cfg, w, PollSucceeds);
      StepRefinesCore(cfg, w, PollSucceeds);
      PollTimesRefines(cfg, w', n - 1);
      PollsStep(CoreOf(w), n);
    }
  }

  /**
   * From any state a run can reach, five plus the number of undelivered events successful
   * polls deliver the whole log, if and only if it is drainable; otherwise none ever do.
   */
  lemma CatchUp(cfg: Config, steps: seq<Step>, n: nat)
    requires AllowedRun(cfg, steps) && 5 + Undelivered(CoreOf(Run(cfg, steps))) <= n
    ensures PollTimes(cfg, Run(cfg, steps), n).delivered == |Run(cfg, steps).log|
       <==> Drainable(CoreOf(Run(cfg, steps)))
    ensures !Drainable(CoreOf(Run(cfg, steps))) ==>
              forall m: nat :: PollTimes(cfg, Run(cfg, steps), m).delivered < |Run(cfg, steps).log|
  {
    var w := Run(cfg, steps);
    NoLoss(cfg, steps);
    CatchUpIff(CoreOf(w), n);
    forall m: nat
      ensures PollTimes(cfg, w, m).delivered == |w.log| - Undelivered(Polls(CoreOf(w), m))
    {
      PollTimesRefines(cfg, w, m);
      PollsKeepLog(CoreOf(w), m);
    }
  }

  lemma PollsKeepLog(c: Core, n: nat)
    ensures Polls(c, n).sorted == c.sorted
  {
    PollsKeep((x: Core) => x.sorted == c.sorted, c, n);
  }

  /** The messages shown are all the texts ever processed, repeats included, filtered into tabs. */
  lemma MessagesAreTextsProcessed(cfg: Config, steps: seq<Step>)
    ensures var w := Run(cfg, steps);
      && w.client.view.texts == TextsOf(w.processed)
      && Filtered(w.client.view.tabs, TextsOf(w.processed))
  {
    ViewIsWhatWasProcessed(cfg, steps);
    ProcessedTexts(cfg, Run(cfg, steps).processed);
    ProcessedTabs(cfg, Run(cfg, steps).processed);
  }
}
