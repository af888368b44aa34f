/** When the phone's cache has room for everything a log holds, however often it is redelivered. */
module CacheRoom {
  import opened Wrappers
  import opened Events
  import opened BitmapCaches
  import opened BitmapBudgets
  import opened EventProcessing

  /** The bitmaps among the events, in order. */
  function PayloadsOf(es: seq<Event>): seq<Entry> {
    if es == [] then []
    else
      var p := es[|es| - 1].payload;
      PayloadsOf(es[..|es| - 1]) + if p.BitmapPayload? then [Entry(p.bitmapKey, p.imageData)] else []
  }

  /** The log's distinct bitmap keys are within the count, and the largest bitmap of each within the bytes. */
  predicate Roomy(cfg: Config, log: seq<Event>) {
    Fits(Biggest(PayloadsOf(log)), cfg.maxSize, cfg.maxBytes)
  }

  lemma {:induction false} PayloadIsListed(es: seq<Event>, e: Event)
    requires e in multiset(es) && e.payload.BitmapPayload?
    ensures Entry(e.payload.bitmapKey, e.payload.imageData) in multiset(PayloadsOf(es))
  {
    var init := es[..|es| - 1];
    assert es == init + [es[|es| - 1]];
    if e != es[|es| - 1] { PayloadIsListed(init, e); }
  }

  predicate CoversPayloads(b: seq<Entry>, es: seq<Event>) {
    es != [] ==>
      && CoversPayloads(b, es[..|es| - 1])
      && var p := es[|es| - 1].payload;
         p.BitmapPayload? ==> Covers(b, Entry(p.bitmapKey, p.imageData))
  }

  lemma {:induction false} LogCoversPayloads(log: seq<Event>, es: seq<Event>)
    requires AllFrom(es, log)
    ensures CoversPayloads(Biggest(PayloadsOf(log)), es)
  {
    if es != [] {
      var init, e := es[..|es| - 1], es[|es| - 1];
      assert es == init + [e];
      LogCoversPayloads(log, init);
      if e.payload.BitmapPayload? {
        PayloadIsListed(log, e);
        BiggestCovers(PayloadsOf(log), Entry(e.payload.bitmapKey, e.payload.imageData));
      }
    }
  }

  lemma CoveredPayloadFits(cfg: Config, b: seq<Entry>, s: seq<Entry>, k: string, data: Bytes)
    requires DistinctKeys(b) && Fits(b, cfg.maxSize, cfg.maxBytes)
    requires DistinctKeys(s) && CoversAll(b, s) && Covers(b, Entry(k, data))
    ensures Fits(Touch(s, k, data), cfg.maxSize, cfg.maxBytes)
    ensures DistinctKeys(Touch(s, k, data)) && CoversAll(b, Touch(s, k, data))
  {
    CoversTouch(b, s, k, data);
    DistinctTouch(s, k, data);
    CoveredIsSmaller(b, Touch(s, k, data));
  }

  lemma {:induction false} CoveredNeverEvicts(cfg: Config, b: seq<Entry>, es: seq<Event>)
    requires DistinctKeys(b) && Fits(b, cfg.maxSize, cfg.maxBytes) && CoversPayloads(b, es)
    ensures NeverEvicts(cfg, es)
    ensures DistinctKeys(ProcessAll(cfg, EMPTY_VIEW, es).cache) && CoversAll(b, ProcessAll(cfg, EMPTY_VIEW, es).cache)
  {
    if es != [] {
      var init, p := es[..|es| - 1], es[|es| - 1].payload;
      CoveredNeverEvicts(cfg, b, init);
      if p.BitmapPayload? {
        CoveredPayloadFits(cfg, b, ProcessAll(cfg, EMPTY_VIEW, init).cache, p.bitmapKey, p.imageData);
      }
    }
  }

  /** With that room nothing made of the log's events is ever evicted, repeats and order notwithstanding. */
  lemma RoomyNeverEvicts(cfg: Config, log: seq<Event>, es: seq<Event>)
    requires Roomy(cfg, log) && AllFrom(es, log)
    ensures NeverEvicts(cfg, es)
  {
    BiggestIsDistinct(PayloadsOf(log));
    LogCoversPayloads(log, es);
    CoveredNeverEvicts(cfg, Biggest(PayloadsOf(log)), es);
  }

  // ---- And the room is needed ----

  lemma {:induction false} ListedIsPayload(es: seq<Event>, x: Entry) returns (e: Event)
    requires x in multiset(PayloadsOf(es))
    ensures e in multiset(es) && e.payload == BitmapPayload(x.key, x.data)
  {
    var init, last := es[..|es| - 1], es[|es| - 1];
    assert es == init + [last];
    if last.payload == BitmapPayload(x.key, x.data) {
      e := last;
    } else {
      e := ListedIsPayload(init, x);
    }
  }

  /** Every entry of `b` comes with some event of the log. */
  predicate AllListed(b: seq<Entry>, log: seq<Event>) {
    b == [] || (AllListed(Init(b), log) && Last(b) in multiset(PayloadsOf(log)))
  }

  lemma {:induction false} ListedIfFound(b: seq<Entry>, log: seq<Event>)
    requires DistinctKeys(b)
    requires forall k :: Find(b, k).Some? ==> Entry(k, Find(b, k).value) in multiset(PayloadsOf(log))
    ensures AllListed(b, log)
  {
    if b != [] {
      var e := Last(b);
      assert Find(b, e.key) == Some(e.data);
      forall k | Find(Init(b), k).Some? ensures Entry(k, Find(Init(b), k).value) in multiset(PayloadsOf(log)) {
        assert Find(b, k).Some?;
      }
      ListedIfFound(Init(b), log);
    }
  }

  lemma TouchUnknown(s: seq<Entry>, e: Entry)
    requires Find(s, e.key).None?
    ensures Touch(s, e.key, e.data) == s + [e]
  {
    WithoutAbsent(s, e.key);
  }

  lemma InitAndLast(b: seq<Entry>)
    requires b != []
    ensures b == Init(b) + [Last(b)]
  {
  }

  lemma OneMoreHeld(cfg: Config, es: seq<Event>, init: seq<Event>, e: Event, b: seq<Entry>)
    requires b != [] && DistinctKeys(b) && e.payload == BitmapPayload(Last(b).key, Last(b).data)
    requires es != [] && es[..|es| - 1] == init && es[|es| - 1] == e && NeverEvicts(cfg, es)
    requires ProcessAll(cfg, EMPTY_VIEW, init).cache == Init(b)
    ensures ProcessAll(cfg, EMPTY_VIEW, es).cache == b && Fits(b, cfg.maxSize, cfg.maxBytes)
  {
    TouchUnknown(Init(b), Last(b));
    InitAndLast(b);
  }

  lemma AllFromMore(es: seq<Event>, e: Event, log: seq<Event>)
    requires AllFrom(es, log) && e in multiset(log)
    ensures AllFrom(es + [e], log)
  {
  }

  /** Each entry's event once, one after the other: while nothing is evicted they are all held. */
  lemma {:induction false} EachOnce(cfg: Config, log: seq<Event>, b: seq<Entry>) returns (es: seq<Event>)
    requires DistinctKeys(b) && AllListed(b, log)
    ensures AllFrom(es, log)
    ensures NeverEvicts(cfg, es) ==>
      ProcessAll(cfg, EMPTY_VIEW, es).cache == b && Fits(b, cfg.maxSize, cfg.maxBytes)
  {
    if b == [] {
      es := [];
    } else {
      var init := EachOnce(cfg, log, Init(b));
      var e := ListedIsPayload(log, Last(b));
      es := init + [e];
      AllFromMore(init, e, log);
      assert es[..|es| - 1] == init;
      if NeverEvicts(cfg, es) { OneMoreHeld(cfg, es, init, e, b); }
    }
  }

  /**
   * Exactly the room that is needed: nothing made of the log's events, in any order and with any
   * repeats, ever evicts if and only if the largest bitmap of each of its keys fits.
   */
  lemma RoomyIff(cfg: Config, log: seq<Event>)
    ensures (forall es :: AllFrom(es, log) ==> NeverEvicts(cfg, es)) <==> Roomy(cfg, log)
  {
    if Roomy(cfg, log) {
      forall es | AllFrom(es, log) ensures NeverEvicts(cfg, es) { RoomyNeverEvicts(cfg, log, es); }
    }
    var b := Biggest(PayloadsOf(log));
    BiggestIsDistinct(PayloadsOf(log));
    forall k | Find(b, k).Some? ensures Entry(k, Find(b, k).value) in multiset(PayloadsOf(log)) {
      BiggestIsPut(PayloadsOf(log), k);
    }
    ListedIfFound(b, log);
    var es := EachOnce(cfg, log, b);
  }
}
