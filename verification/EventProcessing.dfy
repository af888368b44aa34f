/**
 * The phone's event processor: what each event does to the message list, the alerts, the
 * display register, the pending fetches, the bitmap cache and the conversation tabs.
 */
module EventProcessing {
  import opened Wrappers
  import opened Events
  import opened BitmapCaches
  import opened Conversations

  datatype AlertText =
    | Unresponsive(agentId: string, silentMs: int)
    | NotDelivered(attemptedInput: string, targetAgent: string)

  datatype Alert = Alert(text: AlertText, timestampMs: int)

  datatype Config = Config(maxSize: nat, maxBytes: int, fetchEnabled: bool)

  /** Everything event processing can change. */
  datatype View = View(
    texts: seq<Message>,
    alerts: seq<Alert>,
    pending: set<string>,
    displayKey: Option<string>,
    fetchCount: nat,
    unknownEvents: nat,
    cache: seq<Entry>,
    tabs: Tabs)

  const EMPTY_VIEW := View([], [], {}, None, 0, 0, [], NO_TABS)

  function Process(cfg: Config, v: View, e: Event): View {
    var p := e.payload;
    if p.TextMessage? then
      var m := Message(p.agentId, p.content, e.ts);
      v.(texts := v.texts + [m], tabs := Route(v.tabs, m))
    else if p.BitmapPayload? then
      v.(cache := Stored(v.cache, p.bitmapKey, p.imageData, cfg.maxSize, cfg.maxBytes))
    else if p.DisplayCommand? then
      var missing := Find(v.cache, p.displayKey).None? && cfg.fetchEnabled;
      v.(pending := if missing then v.pending + {p.displayKey} else v.pending,
         displayKey := Some(p.displayKey))
    else if p.WatchdogTimeout? then
      v.(alerts := v.alerts + [Alert(Unresponsive(p.silentAgent, p.silentMs), e.ts)])
    else if p.InputDeliveryFailure? then
      v.(alerts := v.alerts + [Alert(NotDelivered(p.attemptedInput, p.targetAgent), e.ts)])
    else
      v.(unknownEvents := v.unknownEvents + 1)
  }

  function ProcessAll(cfg: Config, v: View, es: seq<Event>): View {
    if es == [] then v else Process(cfg, ProcessAll(cfg, v, es[..|es| - 1]), es[|es| - 1])
  }

  lemma {:induction false} ProcessConcat(cfg: Config, v: View, a: seq<Event>, b: seq<Event>)
    ensures ProcessAll(cfg, v, a + b) == ProcessAll(cfg, ProcessAll(cfg, v, a), b)
  {
    if b == [] {
      assert a + b == a;
    } else {
      assert (a + b)[..|a + b| - 1] == a + b[..|b| - 1];
      ProcessConcat(cfg, v, a, b[..|b| - 1]);
    }
  }

  class EventProcessor {
    const cache: BitmapCache
    const tabs: ConversationTabManager
    const fetchEnabled: bool
    var textMessages: seq<Message>
    var alerts: seq<Alert>
    var pendingFetches: set<string>
    var currentDisplayKey: Option<string>
    var fetchCount: nat
    var unknownEventCount: nat

    ghost predicate Valid()
      reads this, cache, tabs
    {
      cache.Valid() && tabs.Valid()
    }

    ghost function Contents(): View
      reads this, cache, tabs
    {
      View(textMessages, alerts, pendingFetches, currentDisplayKey, fetchCount, unknownEventCount,
           cache.entries, tabs.Contents())
    }

    ghost function Settings(): Config {
      Config(cache.maxSize, cache.maxBytes, fetchEnabled)
    }

    constructor (cache: BitmapCache, tabs: ConversationTabManager, fetchEnabled: bool)
      requires cache.Valid() && tabs.Valid()
      ensures Valid() && this.cache == cache && this.tabs == tabs && this.fetchEnabled == fetchEnabled
      ensures Contents() == EMPTY_VIEW.(cache := cache.entries, tabs := tabs.Contents())
    {
      this.cache := cache;
      this.tabs := tabs;
      this.fetchEnabled := fetchEnabled;
      textMessages := [];
      alerts := [];
      pendingFetches := {};
      currentDisplayKey := None;
      fetchCount := 0;
      unknownEventCount := 0;
    }

    method ProcessEvent(event: Event)
      requires Valid()
      modifies this, cache, tabs
      ensures Valid()
      ensures Contents() == Process(Settings(), old(Contents()), event)
    {
      var p := event.payload;
      if p.TextMessage? {
        textMessages := textMessages + [Message(p.agentId, p.content, event.ts)];
        tabs.RouteTextMessage(p.agentId, p.content, event.ts);
      } else if p.BitmapPayload? {
        cache.Put(p.bitmapKey, p.imageData);
      } else if p.DisplayCommand? {
        var present := cache.Contains(p.displayKey);
        if !present && fetchEnabled {
          pendingFetches := pendingFetches + {p.displayKey};
        }
        currentDisplayKey := Some(p.displayKey);
      } else if p.WatchdogTimeout? {
        alerts := alerts + [Alert(Unresponsive(p.silentAgent, p.silentMs), event.ts)];
      } else if p.InputDeliveryFailure? {
        alerts := alerts + [Alert(NotDelivered(p.attemptedInput, p.targetAgent), event.ts)];
      } else {
        unknownEventCount := unknownEventCount + 1;
      }
    }

    /** A fetch that arrives, or fails, for a key the processor asked for. */
    method CompleteFetch(cacheKey: string, data: Option<Bytes>)
      requires Valid()
      modifies this`pendingFetches, this`fetchCount, cache
      ensures Valid()
      ensures pendingFetches == old(pendingFetches) - {cacheKey}
      ensures fetchCount == old(fetchCount) + if data.Some? then 1 else 0
      ensures data.None? ==> cache.entries == old(cache.entries)
      ensures data.Some? ==>
        cache.entries == Stored(old(cache.entries), cacheKey, data.value, cache.maxSize, cache.maxBytes)
    {
      pendingFetches := pendingFetches - {cacheKey};
      if data.Some? { StoreFetched(cacheKey, data.value); }
    }

    method StoreFetched(cacheKey: string, data: Bytes)
      requires Valid()
      modifies this`fetchCount, cache
      ensures Valid() && fetchCount == old(fetchCount) + 1
      ensures cache.entries == Stored(old(cache.entries), cacheKey, data, cache.maxSize, cache.maxBytes)
    {
      fetchCount := fetchCount + 1;
      cache.Put(cacheKey, data);
    }

    method ProcessEvents(events: seq<Event>)
      requires Valid()
      modifies this, cache, tabs
      ensures Valid()
      ensures Contents() == ProcessAll(Settings(), old(Contents()), events)
    {
      for i := 0 to |events|
        invariant Valid()
        invariant Contents() == ProcessAll(Settings(), old(Contents()), events[..i])
      {
        ProcessEvent(events[i]);
        assert events[..i + 1][..i] == events[..i];
      }
      assert events[..|events|] == events;
    }
  }

  // ---- What a processed sequence of events amounts to ----

  function TextsOf(es: seq<Event>): seq<Message> {
    if es == [] then []
    else
      var e := es[|es| - 1];
      TextsOf(es[..|es| - 1])
      + (if e.payload.TextMessage? then [Message(e.payload.agentId, e.payload.content, e.ts)] else [])
  }

  /** Every event of `es` is one of `log`. */
  ghost predicate AllFrom(es: seq<Event>, log: seq<Event>) {
    forall e :: e in multiset(es) ==> e in multiset(log)
  }

  /** The registers that later events overwrite: the display key and each cached bitmap. */
  datatype Register = Display | Cached(key: string)

  predicate Writes(e: Event, r: Register) {
    match r
    case Display => e.payload.DisplayCommand?
    case Cached(k) => e.payload.BitmapPayload? && e.payload.bitmapKey == k
  }

  /** The last event that writes a register. */
  function LastWriter(es: seq<Event>, r: Register): (w: Option<Event>)
    ensures w.Some? ==> Writes(w.value, r)
  {
    if es == [] then None
    else if Writes(es[|es| - 1], r) then Some(es[|es| - 1])
    else LastWriter(es[..|es| - 1], r)
  }

  function DisplayKeyIn(es: seq<Event>): Option<string> {
    match LastWriter(es, Display)
    case None => None
    case Some(e) => Some(e.payload.displayKey)
  }

  function BitmapIn(es: seq<Event>, k: string): Option<Bytes> {
    match LastWriter(es, Cached(k))
    case None => None
    case Some(e) => Some(e.payload.imageData)
  }

  datatype Value = Key(key: string) | Image(data: Bytes)

  /** What `es` leaves in a register that was empty before. */
  function ValueIn(es: seq<Event>, r: Register): Option<Value> {
    if LastWriter(es, r).None? then None
    else if r.Display? then Some(Key(LastWriter(es, r).value.payload.displayKey))
    else Some(Image(LastWriter(es, r).value.payload.imageData))
  }

  lemma {:induction false} LastWriterConcat(a: seq<Event>, b: seq<Event>, r: Register)
    ensures LastWriter(a + b, r) == if LastWriter(b, r).Some? then LastWriter(b, r) else LastWriter(a, r)
  {
    if b == [] {
      assert a + b == a;
    } else {
      assert (a + b)[..|a + b| - 1] == a + b[..|b| - 1];
      LastWriterConcat(a, b[..|b| - 1], r);
    }
  }

  /** The message list is the in-order list of every text event processed. */
  lemma {:induction false} ProcessedTexts(cfg: Config, es: seq<Event>)
    ensures ProcessAll(cfg, EMPTY_VIEW, es).texts == TextsOf(es)
  {
    if es != [] { ProcessedTexts(cfg, es[..|es| - 1]); }
  }

  function AlertsOf(es: seq<Event>): seq<Alert> {
    if es == [] then []
    else
      var p, ts := es[|es| - 1].payload, es[|es| - 1].ts;
      AlertsOf(es[..|es| - 1])
      + (if p.WatchdogTimeout? then [Alert(Unresponsive(p.silentAgent, p.silentMs), ts)]
         else if p.InputDeliveryFailure? then [Alert(NotDelivered(p.attemptedInput, p.targetAgent), ts)]
         else [])
  }

  /** How many of the events satisfy a predicate. */
  function CountOf(es: seq<Event>, kind: Payload -> bool): nat {
    if es == [] then 0 else CountOf(es[..|es| - 1], kind) + if kind(es[|es| - 1].payload) then 1 else 0
  }

  /** The alerts are the timeouts and delivery failures processed, in order, and the counter counts the unknown ones. */
  lemma {:induction false} ProcessedAlerts(cfg: Config, es: seq<Event>)
    ensures ProcessAll(cfg, EMPTY_VIEW, es).alerts == AlertsOf(es)
    ensures ProcessAll(cfg, EMPTY_VIEW, es).unknownEvents == CountOf(es, (p: Payload) => p.Unset?)
  {
    if es != [] { ProcessedAlerts(cfg, es[..|es| - 1]); }
  }

  /** Event `i` asks for a bitmap that is not cached when it is processed. */
  predicate MissesAt(cfg: Config, es: seq<Event>, k: string, i: int) {
    && 0 <= i < |es| && es[i].payload.DisplayCommand? && es[i].payload.displayKey == k
    && Find(ProcessAll(cfg, EMPTY_VIEW, es[..i]).cache, k).None?
  }

  /** A key is pending if and only if fetching is on and some display command missed it. */
  lemma {:induction false} ProcessedPending(cfg: Config, es: seq<Event>, k: string)
    ensures k in ProcessAll(cfg, EMPTY_VIEW, es).pending <==> cfg.fetchEnabled && exists i :: MissesAt(cfg, es, k, i)
  {
    if es != [] {
      var init, n := es[..|es| - 1], |es| - 1;
      ProcessedPending(cfg, init, k);
      forall i | 0 <= i < n ensures MissesAt(cfg, init, k, i) == MissesAt(cfg, es, k, i) {
        assert init[..i] == es[..i];
      }
      assert k in ProcessAll(cfg, EMPTY_VIEW, es).pending && k !in ProcessAll(cfg, EMPTY_VIEW, init).pending ==>
          MissesAt(cfg, es, k, n);
    }
  }

  /** The display register holds the key of the last display command processed. */
  lemma {:induction false} ProcessedDisplay(cfg: Config, es: seq<Event>)
    ensures ProcessAll(cfg, EMPTY_VIEW, es).displayKey == DisplayKeyIn(es)
  {
    if es != [] { ProcessedDisplay(cfg, es[..|es| - 1]); }
  }

  /** The tabs are the filters of every text event processed. */
  lemma {:induction false} ProcessedTabs(cfg: Config, es: seq<Event>)
    ensures ProcessAll(cfg, EMPTY_VIEW, es).tabs == RouteAll(NO_TABS, TextsOf(es))
    ensures Filtered(ProcessAll(cfg, EMPTY_VIEW, es).tabs, TextsOf(es))
  {
    RoutingIsAFilter(TextsOf(es));
    if es != [] {
      ProcessedTabs(cfg, es[..|es| - 1]);
      var t, p := TextsOf(es[..|es| - 1]), es[|es| - 1].payload;
      if p.TextMessage? {
        var m := Message(p.agentId, p.content, es[|es| - 1].ts);
        assert (t + [m])[..|t|] == t;
      } else {
        assert TextsOf(es) == t;
      }
    }
  }

  lemma ProcessKeepsCachedValues(cfg: Config, v: View, e: Event, k: string)
    requires DistinctKeys(v.cache)
    ensures var c := Process(cfg, v, e).cache;
      && DistinctKeys(c)
      && (Find(c, k).Some? ==>
            Find(c, k) == if Writes(e, Cached(k)) then Some(e.payload.imageData) else Find(v.cache, k))
  {
    if e.payload.BitmapPayload? {
      var key, image := e.payload.bitmapKey, e.payload.imageData;
      StoredValues(v.cache, key, image, cfg.maxSize, cfg.maxBytes, k);
      assert Process(cfg, v, e).cache == Stored(v.cache, key, image, cfg.maxSize, cfg.maxBytes);
    }
  }

  /** Whatever is cached under a key is the last payload processed for it, evictions or not. */
  lemma {:induction false} CachedIsLastPayload(cfg: Config, es: seq<Event>, k: string)
    ensures var c := ProcessAll(cfg, EMPTY_VIEW, es).cache;
      DistinctKeys(c) && (Find(c, k).Some? ==> Find(c, k) == BitmapIn(es, k))
  {
    if es != [] {
      CachedIsLastPayload(cfg, es[..|es| - 1], k);
      ProcessKeepsCachedValues(cfg, ProcessAll(cfg, EMPTY_VIEW, es[..|es| - 1]), es[|es| - 1], k);
    }
  }

  /** No payload of `es` ever pushes the cache over a budget. */
  predicate NeverEvicts(cfg: Config, es: seq<Event>) {
    es != [] ==>
      && NeverEvicts(cfg, es[..|es| - 1])
      && (es[|es| - 1].payload.BitmapPayload? ==>
            Fits(Touch(ProcessAll(cfg, EMPTY_VIEW, es[..|es| - 1]).cache,
                       es[|es| - 1].payload.bitmapKey, es[|es| - 1].payload.imageData),
                 cfg.maxSize, cfg.maxBytes))
  }

  /** A payload that fits evicts nothing. */
  lemma StoredWithoutEviction(cfg: Config, v: View, e: Event, k: string)
    requires e.payload.BitmapPayload? ==>
      Fits(Touch(v.cache, e.payload.bitmapKey, e.payload.imageData), cfg.maxSize, cfg.maxBytes)
    ensures Find(Process(cfg, v, e).cache, k)
         == if Writes(e, Cached(k)) then Some(e.payload.imageData) else Find(v.cache, k)
  {
    if e.payload.BitmapPayload? { FindTouch(v.cache, e.payload.bitmapKey, e.payload.imageData, k); }
  }

  /** While nothing is evicted, the cache holds the last payload of every key ever processed. */
  lemma {:induction false} NothingEvictedNothingMissing(cfg: Config, es: seq<Event>, k: string)
    requires NeverEvicts(cfg, es)
    ensures Find(ProcessAll(cfg, EMPTY_VIEW, es).cache, k) == BitmapIn(es, k)
  {
    if es != [] {
      var init := es[..|es| - 1];
      NothingEvictedNothingMissing(cfg, init, k);
      StoredWithoutEviction(cfg, ProcessAll(cfg, EMPTY_VIEW, init), es[|es| - 1], k);
    }
  }
}
