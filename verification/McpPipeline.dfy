/**
 * From MCP tool calls to the phone: the handlers' bitmap cache, the bridge that stores bitmaps
 * and appends events, and what a polling client can rely on in the log they produce.
 */
module McpPipeline {
  import opened Wrappers
  import opened Events
  import opened EventLog
  import opened BitmapTracker
  import opened BitmapCaches
  import opened EventProcessing
  import opened SyncCore
  import opened SyncProtocol
  import opened CacheRoom
  import Client = SyncClient

  // ---- The objects ----

  /** What tool calls change: the handlers' globals, the bridge's bitmap store, and the log. */
  datatype Desk = Desk(cache: map<string, Bytes>, current: Option<string>, store: map<string, Bytes>, log: seq<Event>)

  datatype Action =
    | Submit(rawBytes: Bytes, now: int)
    | Show(key: string, now: int)
    | Other(payload: Payload, now: int)
    | Poll(reachable: bool)

  /** A tool call, an event of another source, or a poll, which touches nothing here. */
  function ActAtDesk(d: Desk, keyOf: Bytes -> string, a: Action): Desk {
    match a
    case Submit(raw, now) =>
      var k := keyOf(raw);
      Desk(d.cache[k := raw], d.current, d.store[k := raw], d.log + [Event(now, BitmapPayload(k, raw))])
    case Show(k, now) =>
      if k in d.cache then d.(current := Some(k), log := d.log + [Event(now, DisplayCommand(k))]) else d
    case Other(payload, now) => d.(log := d.log + [Event(now, payload)])
    case Poll(_) => d
  }

  class McpBridge {
    const eventStore: EventStore
    const bitmapStore: BitmapCacheTracker

    constructor (eventStore: EventStore, bitmapStore: BitmapCacheTracker)
      ensures this.eventStore == eventStore && this.bitmapStore == bitmapStore
    {
      this.eventStore := eventStore;
      this.bitmapStore := bitmapStore;
    }

    method OnBitmapSubmitted(cacheKey: string, imageData: Bytes, nowMs: int)
      modifies eventStore, bitmapStore
      ensures bitmapStore.bitmaps == old(bitmapStore.bitmaps)[cacheKey := imageData]
      ensures bitmapStore.sent == old(bitmapStore.sent)
      ensures eventStore.events == old(eventStore.events) + [Event(nowMs, BitmapPayload(cacheKey, imageData))]
    {
      bitmapStore.StoreBitmap(cacheKey, imageData);
      eventStore.AddEvent(Event(nowMs, BitmapPayload(cacheKey, imageData)));
    }

    method OnDisplayRequested(cacheKey: string, nowMs: int)
      modifies eventStore
      ensures eventStore.events == old(eventStore.events) + [Event(nowMs, DisplayCommand(cacheKey))]
    {
      eventStore.AddEvent(Event(nowMs, DisplayCommand(cacheKey)));
    }
  }

  class McpHandlers {
    const bridge: McpBridge
    const keyOf: Bytes -> string
    var cache: map<string, Bytes>
    var currentDisplayKey: Option<string>

    constructor (bridge: McpBridge, keyOf: Bytes -> string)
      ensures this.bridge == bridge && this.keyOf == keyOf
      ensures cache == map[] && currentDisplayKey == None
    {
      this.bridge := bridge;
      this.keyOf := keyOf;
      cache := map[];
      currentDisplayKey := None;
    }

    ghost function Contents(): Desk
      reads this, bridge, bridge.eventStore, bridge.bitmapStore
    {
      Desk(cache, currentDisplayKey, bridge.bitmapStore.bitmaps, bridge.eventStore.events)
    }

    method HandleSubmitBitmap(rawBytes: Bytes, nowMs: int) returns (cacheKey: string)
      modifies this`cache, bridge.eventStore, bridge.bitmapStore
      ensures cacheKey == keyOf(rawBytes)
      ensures Contents() == ActAtDesk(old(Contents()), keyOf, Submit(rawBytes, nowMs))
      ensures bridge.bitmapStore.sent == old(bridge.bitmapStore.sent)
    {
      cacheKey := keyOf(rawBytes);
      cache := cache[cacheKey := rawBytes];
      bridge.OnBitmapSubmitted(cacheKey, rawBytes, nowMs);
    }

    method HandleDisplayBitmap(cacheKey: string, nowMs: int) returns (success: bool)
      modifies this`currentDisplayKey, bridge.eventStore
      ensures success <==> cacheKey in cache
      ensures Contents() == ActAtDesk(old(Contents()), keyOf, Show(cacheKey, nowMs))
    {
      if cacheKey !in cache { return false; }
      currentDisplayKey := Some(cacheKey);
      bridge.OnDisplayRequested(cacheKey, nowMs);
      return true;
    }
  }

  // ---- Runs of tool calls, other events and polls ----

  /**
   * The handlers' globals, the bridge's bitmap store, the clock's last reading, and the steps
   * of the sync protocol taken so far; the log and the client are what those steps produce.
   */
  datatype Pipeline = Pipeline(
    cache: map<string, Bytes>,
    current: Option<string>,
    store: map<string, Bytes>,
    clock: int,
    steps: seq<Step>)

  /** The clock starts no earlier than the last seed event. */
  const IDLE := Pipeline(map[], None, map[], 3000, [])

  function Record(p: Pipeline, payload: Payload, now: int): Pipeline {
    p.(clock := now, steps := p.steps + [Append(Event(now, payload))])
  }

  function Act(p: Pipeline, keyOf: Bytes -> string, a: Action): Pipeline {
    if a.Submit? then
      var k := keyOf(a.rawBytes);
      Record(p, BitmapPayload(k, a.rawBytes), a.now).(cache := p.cache[k := a.rawBytes],
                                                      store := p.store[k := a.rawBytes])
    else if a.Show? then
      if a.key in p.cache then Record(p, DisplayCommand(a.key), a.now).(current := Some(a.key)) else p
    else if a.Other? then Record(p, a.payload, a.now)
    else p.(steps := p.steps + [if a.reachable then PollSucceeds else PollFails])
  }

  function DeskOf(cfg: Config, p: Pipeline): Desk {
    Desk(p.cache, p.current, p.store, Run(cfg, p.steps).log)
  }

  /** A run's actions change what the tool calls change exactly as the calls do. */
  lemma ActIsAtDesk(cfg: Config, p: Pipeline, keyOf: Bytes -> string, a: Action)
    ensures DeskOf(cfg, Act(p, keyOf, a)) == ActAtDesk(DeskOf(cfg, p), keyOf, a)
  {
    match a
    case Submit(raw, now) => RunSnoc(cfg, p.steps, Append(Event(now, BitmapPayload(keyOf(raw), raw))));
    case Show(k, now) => RunSnoc(cfg, p.steps, Append(Event(now, DisplayCommand(k))));
    case Other(payload, now) => RunSnoc(cfg, p.steps, Append(Event(now, payload)));
    case Poll(reachable) => RunSnoc(cfg, p.steps, if reachable then PollSucceeds else PollFails);
  }

  /** A poll of a run is a poll of the phone's: it receives the next page, or fails if the server is not reachable. */
  lemma PollIsPoll(cfg: Config, p: Pipeline, keyOf: Bytes -> string, reachable: bool)
    ensures var w := Run(cfg, p.steps);
      Run(cfg, Act(p, keyOf, Poll(reachable)).steps).client
      == if reachable then Client.Received(cfg, w.client, Client.NextPage(w.log, w.client)) else Client.Failed(w.client)
  {
    RunSnoc(cfg, p.steps, if reachable then PollSucceeds else PollFails);
  }

  /** The clock does not run backwards, and only the bridge adds bitmaps and display commands. */
  predicate Permitted(p: Pipeline, a: Action) {
    && (a.Poll? || p.clock <= a.now)
    && (a.Other? ==> !a.payload.BitmapPayload? && !a.payload.DisplayCommand?)
  }

  function ActAll(keyOf: Bytes -> string, actions: seq<Action>): Pipeline {
    if actions == [] then IDLE
    else Act(ActAll(keyOf, actions[..|actions| - 1]), keyOf, actions[|actions| - 1])
  }

  predicate PermittedAll(keyOf: Bytes -> string, actions: seq<Action>) {
    actions != [] ==>
      && PermittedAll(keyOf, actions[..|actions| - 1])
      && Permitted(ActAll(keyOf, actions[..|actions| - 1]), actions[|actions| - 1])
  }

  // ---- Display commands are backed by bitmaps ----

  /** Every display command comes after a payload for its key. */
  predicate Backed(es: seq<Event>) {
    es != [] ==>
      && Backed(es[..|es| - 1])
      && (es[|es| - 1].payload.DisplayCommand? ==>
            LastWriter(es[..|es| - 1], Cached(es[|es| - 1].payload.displayKey)).Some?)
  }

  lemma BackedAppend(es: seq<Event>, e: Event)
    requires Backed(es)
    requires e.payload.DisplayCommand? ==> LastWriter(es, Cached(e.payload.displayKey)).Some?
    ensures Backed(es + [e])
  {
    assert (es + [e])[..|es|] == es;
  }

  lemma {:induction false} BackedPrefix(es: seq<Event>, n: nat)
    requires Backed(es) && n <= |es|
    ensures Backed(es[..n])
  {
    if n < |es| {
      BackedPrefix(es[..|es| - 1], n);
      assert es[..|es| - 1][..n] == es[..n];
    } else {
      assert es[..n] == es;
    }
  }

  lemma {:induction false} WriterIsMember(es: seq<Event>, r: Register)
    requires LastWriter(es, r).Some?
    ensures LastWriter(es, r).value in multiset(es)
  {
    if !Writes(es[|es| - 1], r) {
      WriterIsMember(es[..|es| - 1], r);
      assert es == es[..|es| - 1] + [es[|es| - 1]];
    }
  }

  lemma {:induction false} MemberWrites(es: seq<Event>, e: Event, r: Register)
    requires e in multiset(es) && Writes(e, r)
    ensures LastWriter(es, r).Some?
  {
    if !Writes(es[|es| - 1], r) {
      assert es == es[..|es| - 1] + [es[|es| - 1]];
      MemberWrites(es[..|es| - 1], e, r);
    }
  }

  lemma WriterSurvives(a: seq<Event>, b: seq<Event>, r: Register)
    requires multiset(a) <= multiset(b) && LastWriter(a, r).Some?
    ensures LastWriter(b, r).Some?
  {
    WriterIsMember(a, r);
    MemberWrites(b, LastWriter(a, r).value, r);
  }

  /** A writer in the log before position `m` is in what was processed, or in the page so far. */
  lemma WriterProcessed(s: seq<Event>, lb: nat, m: nat, processed: seq<Event>, r: Register)
    requires lb <= m <= |s| && LastWriter(s[..m], r).Some?
    requires multiset(s[..lb]) <= multiset(processed)
    ensures LastWriter(processed + s[lb..m], r).Some?
  {
    WriterInPrefix(s, lb, m, r);
    LastWriterConcat(processed, s[lb..m], r);
    if LastWriter(s[lb..m], r).None? { WriterSurvives(s[..lb], processed, r); }
  }

  lemma BackedAt(s: seq<Event>, m: nat)
    requires m < |s| && Backed(s) && s[m].payload.DisplayCommand?
    ensures LastWriter(s[..m], Cached(s[m].payload.displayKey)).Some?
  {
    BackedPrefix(s, m + 1);
    assert s[..m + 1][..m] == s[..m];
  }

  lemma SliceSnoc(a: seq<Event>, s: seq<Event>, lb: nat, m: nat)
    requires lb <= m < |s|
    ensures a + s[lb..m + 1] == (a + s[lb..m]) + [s[m]]
  {
  }

  lemma PageStepKeepsBacked(s: seq<Event>, lb: nat, m: nat, processed: seq<Event>)
    requires lb <= m < |s| && Backed(s) && Backed(processed + s[lb..m])
    requires multiset(s[..lb]) <= multiset(processed)
    ensures Backed(processed + s[lb..m + 1])
  {
    SliceSnoc(processed, s, lb, m);
    if s[m].payload.DisplayCommand? {
      BackedAt(s, m);
      WriterProcessed(s, lb, m, processed, Cached(s[m].payload.displayKey));
    }
    BackedAppend(processed + s[lb..m], s[m]);
  }

  /** Replaying a page of a backed log on top of everything before it keeps the whole backed. */
  lemma PageKeepsBacked(s: seq<Event>, lb: nat, hi: nat, processed: seq<Event>)
    requires lb <= hi <= |s| && Backed(s) && Backed(processed)
    requires multiset(s[..lb]) <= multiset(processed)
    ensures Backed(processed + s[lb..hi])
  {
    assert processed + s[lb..lb] == processed;
    for m := lb to hi
      invariant Backed(processed + s[lb..m])
    {
      PageStepKeepsBacked(s, lb, m, processed);
    }
  }

  lemma PrefixProcessed(s: seq<Event>, lb: nat, delivered: nat, processed: seq<Event>)
    requires lb <= delivered <= |s| && multiset(s[..delivered]) <= multiset(processed)
    ensures multiset(s[..lb]) <= multiset(processed)
  {
    assert s[..delivered] == s[..lb] + s[lb..delivered];
  }

  lemma PollKeepsBacked(c: Core)
    requires Inv(c) && DeliveredWasProcessed(c) && Backed(c.sorted) && Backed(c.processed)
    ensures Backed(Polled(c).processed)
  {
    PolledIs(c);
    PageIsSlice(c);
    PrefixProcessed(c.sorted, Start(c), c.delivered, c.processed);
    PageKeepsBacked(c.sorted, Start(c), End(c), c.processed);
  }

  /** A client that evicts nothing finds the bitmap of every backed display command. */
  lemma {:induction false} BackedNeedsNoFetch(cfg: Config, es: seq<Event>)
    requires Backed(es) && NeverEvicts(cfg, es)
    ensures ProcessAll(cfg, EMPTY_VIEW, es).pending == {}
  {
    if es != [] {
      var init, e := es[..|es| - 1], es[|es| - 1];
      BackedNeedsNoFetch(cfg, init);
      if e.payload.DisplayCommand? {
        NothingEvictedNothingMissing(cfg, init, e.payload.displayKey);
      }
    }
  }

  // ---- What every run keeps ----

  /** The log is in timestamp order, none of it later than the clock. */
  ghost predicate InOrder(log: seq<Event>, clock: int) {
    Sorted(log) && forall i :: 0 <= i < |log| ==> log[i].ts <= clock
  }

  lemma AppendInOrder(log: seq<Event>, clock: int, e: Event)
    requires InOrder(log, clock) && clock <= e.ts
    ensures InOrder(log + [e], e.ts)
  {
  }

  /** The handlers' cache is the last payload of every key in the log. */
  ghost predicate Mirrors(cache: map<string, Bytes>, log: seq<Event>) {
    && (forall k :: k in cache <==> BitmapIn(log, k).Some?)
    && (forall k :: k in cache ==> BitmapIn(log, k) == Some(cache[k]))
  }

  lemma AppendMirrors(cache: map<string, Bytes>, log: seq<Event>, e: Event)
    requires Mirrors(cache, log)
    ensures Mirrors(if e.payload.BitmapPayload? then cache[e.payload.bitmapKey := e.payload.imageData] else cache,
                    log + [e])
  {
    assert (log + [e])[..|log|] == log;
  }

  ghost predicate LogInv(p: Pipeline, log: seq<Event>) {
    InOrder(log, p.clock) && Backed(log) && Mirrors(p.cache, log) && p.store == p.cache
  }

  ghost predicate RunInv(cfg: Config, p: Pipeline) {
    && AllowedRun(cfg, p.steps)
    && LogInv(p, Run(cfg, p.steps).log)
    && Backed(Run(cfg, p.steps).processed)
  }

  /** The cursor never passes the clock, so what the clock stamps is never behind the cursor. */
  lemma CursorNotAfterClock(cfg: Config, p: Pipeline)
    requires RunInv(cfg, p) && 0 <= p.clock
    ensures Run(cfg, p.steps).client.since <= p.clock
  {
    NoLoss(cfg, p.steps);
    SortedLogIsFixed(Run(cfg, p.steps).log);
  }

  lemma RecordKeepsInv(cfg: Config, p: Pipeline, payload: Payload, now: int, q: Pipeline)
    requires RunInv(cfg, p) && 0 <= p.clock <= now
    requires payload.DisplayCommand? ==> payload.displayKey in p.cache
    requires q.steps == p.steps + [Append(Event(now, payload))] && q.clock == now && q.store == q.cache
    requires q.cache == if payload.BitmapPayload? then p.cache[payload.bitmapKey := payload.imageData] else p.cache
    ensures RunInv(cfg, q)
  {
    var e, w := Event(now, payload), Run(cfg, p.steps);
    RunSnoc(cfg, p.steps, Append(e));
    CursorNotAfterClock(cfg, p);
    AppendInOrder(w.log, p.clock, e);
    AppendMirrors(p.cache, w.log, e);
    BackedAppend(w.log, e);
  }

  lemma PollKeepsInv(cfg: Config, p: Pipeline, step: Step)
    requires RunInv(cfg, p) && !step.Append?
    ensures RunInv(cfg, p.(steps := p.steps + [step]))
  {
    var w := Run(cfg, p.steps);
    RunSnoc(cfg, p.steps, step);
    if step.PollSucceeds? {
      NoLoss(cfg, p.steps);
      AtLeastOnce(cfg, p.steps);
      SortedLogIsFixed(w.log);
      PollKeepsBacked(CoreOf(w));
      StepRefinesCore(cfg, w, step);
    }
  }

  lemma ActKeepsInv(cfg: Config, keyOf: Bytes -> string, p: Pipeline, a: Action)
    requires RunInv(cfg, p) && 0 <= p.clock && Permitted(p, a)
    ensures RunInv(cfg, Act(p, keyOf, a)) && p.clock <= Act(p, keyOf, a).clock
  {
    var q := Act(p, keyOf, a);
    if a.Submit? {
      RecordKeepsInv(cfg, p, BitmapPayload(keyOf(a.rawBytes), a.rawBytes), a.now, q);
    } else if a.Show? {
      if a.key in p.cache { RecordKeepsInv(cfg, p, DisplayCommand(a.key), a.now, q); }
    } else if a.Other? {
      RecordKeepsInv(cfg, p, a.payload, a.now, q);
    } else {
      PollKeepsInv(cfg, p, if a.reachable then PollSucceeds else PollFails);
    }
  }

  lemma IdleInv(cfg: Config)
    ensures RunInv(cfg, IDLE)
  {
    assert Run(cfg, []) == START;
    assert Backed(SEED[..0]) && Backed(SEED[..1]) && Backed(SEED[..2]);
    assert SEED[..2][..1] == SEED[..1] && SEED[..1][..0] == SEED[..0];
    forall k ensures LastWriter(SEED, Cached(k)).None? {
      assert LastWriter(SEED[..0], Cached(k)).None?;
      assert LastWriter(SEED[..1], Cached(k)).None?;
      assert LastWriter(SEED[..2], Cached(k)).None?;
    }
  }

  /**
   * In every run of tool calls, other events and polls whose clock does not go backwards, no
   * event is ever added behind the client's cursor, the log is in order, every display
   * command in it follows a payload for its key, and the handlers' cache, the bridge's store
   * and the last payloads in the log are the same.
   */
  lemma {:induction false} PipelineRuns(cfg: Config, keyOf: Bytes -> string, actions: seq<Action>)
    requires PermittedAll(keyOf, actions)
    ensures RunInv(cfg, ActAll(keyOf, actions)) && 0 <= ActAll(keyOf, actions).clock
  {
    if actions == [] {
      IdleInv(cfg);
    } else {
      PipelineRuns(cfg, keyOf, actions[..|actions| - 1]);
      ActKeepsInv(cfg, keyOf, ActAll(keyOf, actions[..|actions| - 1]), actions[|actions| - 1]);
    }
  }

  /** No fetch is ever needed by a client that evicts nothing. */
  lemma UnevictedNeedsNoFetch(cfg: Config, keyOf: Bytes -> string, actions: seq<Action>)
    requires PermittedAll(keyOf, actions)
    requires NeverEvicts(cfg, Run(cfg, ActAll(keyOf, actions).steps).processed)
    ensures Run(cfg, ActAll(keyOf, actions).steps).client.view.pending == {}
  {
    var steps := ActAll(keyOf, actions).steps;
    PipelineRuns(cfg, keyOf, actions);
    ViewIsWhatWasProcessed(cfg, steps);
    BackedNeedsNoFetch(cfg, Run(cfg, steps).processed);
  }

  /** Nor by one whose budgets have room for the largest bitmap of every key in the log. */
  lemma NoFetchNeeded(cfg: Config, keyOf: Bytes -> string, actions: seq<Action>)
    requires PermittedAll(keyOf, actions) && Roomy(cfg, Run(cfg, ActAll(keyOf, actions).steps).log)
    ensures Run(cfg, ActAll(keyOf, actions).steps).client.view.pending == {}
  {
    PipelineRuns(cfg, keyOf, actions);
    RoomNeverBinds(cfg, ActAll(keyOf, actions).steps);
    UnevictedNeedsNoFetch(cfg, keyOf, actions);
  }
}
