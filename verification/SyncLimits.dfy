/**
 * What the protocol does not promise, as runs from the start: a register that a poll sets
 * back, a log that no number of polls delivers, and texts that every poll repeats.
 */
module SyncLimits {
  import opened Wrappers
  import opened Events
  import opened EventLog
  import opened EventProcessing
  import opened Connectivity
  import opened BitmapCaches
  import opened Conversations
  import opened SyncCore
  import opened SyncCatchUp
  import opened SyncProtocol
  import Client = SyncClient

  // ---- Runs that begin with appends ----

  function Appends(es: seq<Event>): seq<Step> {
    if es == [] then [] else Appends(es[..|es| - 1]) + [Append(es[|es| - 1])]
  }

  lemma OneMoreAppend(cfg: Config, steps: seq<Step>, w: World, es: seq<Event>, e: Event)
    requires AllowedRun(cfg, steps) && Run(cfg, steps) == w.(log := w.log + es) && w.client.since <= e.ts
    ensures AllowedRun(cfg, steps + [Append(e)])
    ensures Run(cfg, steps + [Append(e)]) == w.(log := w.log + (es + [e]))
  {
    RunSnoc(cfg, steps, Append(e));
    assert (w.log + es) + [e] == w.log + (es + [e]);
  }

  lemma AppendsSnoc(base: seq<Step>, es: seq<Event>, e: Event)
    ensures base + Appends(es + [e]) == (base + Appends(es)) + [Append(e)]
  {
    assert (es + [e])[..|es|] == es;
  }

  lemma {:induction false} AppendsAfter(cfg: Config, base: seq<Step>, w: World, es: seq<Event>)
    requires AllowedRun(cfg, base) && Run(cfg, base) == w && forall i :: 0 <= i < |es| ==> w.client.since <= es[i].ts
    ensures AllowedRun(cfg, base + Appends(es)) && Run(cfg, base + Appends(es)) == w.(log := w.log + es)
  {
    if es == [] {
      assert base + Appends(es) == base && w.log + es == w.log;
    } else {
      var init, e := es[..|es| - 1], es[|es| - 1];
      AppendsAfter(cfg, base, w, init);
      OneMoreAppend(cfg, base + Appends(init), w, init, e);
      assert es == init + [e];
      AppendsSnoc(base, init, e);
    }
  }

  lemma AppendsRun(cfg: Config, es: seq<Event>)
    requires forall i :: 0 <= i < |es| ==> 0 <= es[i].ts
    ensures AllowedRun(cfg, Appends(es)) && Run(cfg, Appends(es)) == START.(log := SEED + es)
  {
    AppendsAfter(cfg, [], START, es);
    assert [] + Appends(es) == Appends(es);
  }

  lemma SortedAfterSeed(es: seq<Event>)
    requires Sorted(es) && forall i :: 0 <= i < |es| ==> 3000 <= es[i].ts
    ensures Sorted(SEED + es)
  {
  }

  lemma CoreOfSorted(w: World, log: seq<Event>)
    requires Sorted(log) && w == START.(log := log)
    ensures CoreOf(w) == Core(log, 0, 50, false, 0, [])
  {
    SortedLogIsFixed(log);
  }

  /** The log after appends that come in timestamp order is already sorted. */
  lemma AppendsCore(cfg: Config, es: seq<Event>)
    requires Sorted(es) && forall i :: 0 <= i < |es| ==> 3000 <= es[i].ts
    ensures AllowedRun(cfg, Appends(es)) && Sorted(SEED + es)
    ensures CoreOf(Run(cfg, Appends(es))) == Core(SEED + es, 0, 50, false, 0, [])
  {
    AppendsRun(cfg, es);
    SortedAfterSeed(es);
    CoreOfSorted(Run(cfg, Appends(es)), SEED + es);
  }

  /** The run is allowed and leads to `c`. */
  ghost predicate Reaches(cfg: Config, steps: seq<Step>, c: Core) {
    AllowedRun(cfg, steps) && CoreOf(Run(cfg, steps)) == c
  }

  lemma PollAfter(cfg: Config, steps: seq<Step>, c: Core)
    requires Reaches(cfg, steps, c)
    ensures Reaches(cfg, steps + [PollSucceeds], Polled(c))
  {
    RunSnoc(cfg, steps, PollSucceeds);
    StepRefinesCore(cfg, Run(cfg, steps), PollSucceeds);
  }

  lemma FailureAfter(cfg: Config, steps: seq<Step>, c: Core)
    requires Reaches(cfg, steps, c)
    ensures Reaches(cfg, steps + [PollFails], SyncCore.Failed(c))
  {
    RunSnoc(cfg, steps, PollFails);
    StepRefinesCore(cfg, Run(cfg, steps), PollFails);
  }

  lemma FirstPageIsAll(s: seq<Event>, c: Core)
    requires Sorted(s) && 0 < |s| <= 50 && 0 <= s[0].ts && c == Core(s, 0, 50, false, 0, [])
    ensures PageOf(c) == s && Start(c) == 0
  {
    LowerBoundIs(s, 0, 0);
    assert s[0..] == s;
  }

  /** The first poll of a log of at most fifty events takes all of it. */
  lemma FirstPollTakesAll(s: seq<Event>, c: Core)
    requires Sorted(s) && 0 < |s| <= 50 && 0 <= s[0].ts && c == Core(s, 0, 50, false, 0, [])
    ensures Polled(c) == Core(s, s[|s| - 1].ts, 5, true, |s|, s)
  {
    FirstPageIsAll(s, c);
    assert [] + s == s;
  }

  /** The run that appends `es` and polls once. */
  lemma AppendAndPoll(cfg: Config, es: seq<Event>) returns (steps: seq<Step>)
    requires Sorted(es) && 0 < |es| <= 47 && forall i :: 0 <= i < |es| ==> 3000 <= es[i].ts
    ensures steps == Appends(es) + [PollSucceeds] && Sorted(SEED + es)
    ensures Reaches(cfg, steps, Core(SEED + es, es[|es| - 1].ts, 5, true, 3 + |es|, SEED + es))
  {
    AppendsCore(cfg, es);
    var s := SEED + es;
    FirstPollTakesAll(s, Core(s, 0, 50, false, 0, []));
    PollAfter(cfg, Appends(es), Core(s, 0, 50, false, 0, []));
    steps := Appends(es) + [PollSucceeds];
  }

  // ---- The display can go back ----

  function Displays(keys: seq<string>, ts: int): (es: seq<Event>)
    ensures |es| == |keys|
    ensures forall i :: 0 <= i < |keys| ==> es[i] == Event(ts, DisplayCommand(keys[i]))
  {
    seq(|keys|, i requires 0 <= i < |keys| => Event(ts, DisplayCommand(keys[i])))
  }

  /** After a failure the page of five ends one event short of the delivered frontier. */
  lemma ShortPage(s: seq<Event>, ts: int, c: Core)
    requires Sorted(s) && |s| == 9 && s[2].ts < ts == s[3].ts && c.sorted == s && c.since == ts && c.maxCount == 5
    ensures Polled(c).processed == c.processed + s[3..8]
  {
    LowerBoundIs(s, ts, 3);
    assert s[3..][..5] == s[3..8];
  }

  lemma LastDisplay(es: seq<Event>, e: Event)
    requires es != [] && es[|es| - 1] == e && e.payload.DisplayCommand?
    ensures DisplayKeyIn(es) == Some(e.payload.displayKey)
  {
  }

  lemma DisplayAfter(cfg: Config, steps: seq<Step>)
    ensures Run(cfg, steps).client.view.displayKey == DisplayKeyIn(Run(cfg, steps).processed)
  {
    ViewIsWhatWasProcessed(cfg, steps);
    ProcessedDisplay(cfg, Run(cfg, steps).processed);
  }

  lemma SixThenFailure(cfg: Config, es: seq<Event>, c: Core) returns (steps: seq<Step>)
    requires |es| == 6 && forall i :: 0 <= i < 6 ==> es[i].ts == 4000
    requires c == Core(SEED + es, 4000, 5, true, 9, SEED + es)
    ensures Reaches(cfg, steps, SyncCore.Failed(c)) && Sorted(SEED + es)
  {
    var polled := AppendAndPoll(cfg, es);
    FailureAfter(cfg, polled, c);
    steps := polled + [PollFails];
  }

  /** What the two last pages of that run leave in the display register. */
  lemma FifthAfterSixth(ds: seq<Event>, s: seq<Event>)
    requires |ds| == 6 && s == SEED + ds && forall i :: 0 <= i < 6 ==> ds[i].payload.DisplayCommand?
    ensures DisplayKeyIn(s) == Some(ds[5].payload.displayKey)
    ensures DisplayKeyIn(s + s[3..8]) == Some(ds[4].payload.displayKey)
  {
    LastDisplay(s, ds[5]);
    LastDisplay(s + s[3..8], ds[4]);
  }

  /** From a core to what is displayed. */
  lemma DisplayAt(cfg: Config, steps: seq<Step>, c: Core)
    requires Reaches(cfg, steps, c)
    ensures Run(cfg, steps).client.view.displayKey == DisplayKeyIn(c.processed)
    ensures Run(cfg, steps).delivered == c.delivered && |Run(cfg, steps).log| == |c.sorted|
  {
    DisplayAfter(cfg, steps);
  }

  /**
   * Six display commands with one timestamp, a poll, a failure and another poll: everything is
   * delivered and the sixth is displayed, and then the fifth is.
   */
  lemma DisplayCanGoBack(cfg: Config, keys: seq<string>) returns (steps: seq<Step>)
    requires |keys| == 6
    ensures AllowedRun(cfg, steps + [PollSucceeds])
    ensures Run(cfg, steps).delivered == |Run(cfg, steps).log|
    ensures Run(cfg, steps).client.view.displayKey == Some(keys[5])
    ensures Run(cfg, steps + [PollSucceeds]).client.view.displayKey == Some(keys[4])
  {
    var ds := Displays(keys, 4000);
    var s := SEED + ds;
    var c := Core(s, 4000, 5, true, 9, s);
    steps := SixThenFailure(cfg, ds, c);
    var failed := SyncCore.Failed(c);
    ShortPage(s, 4000, failed);
    FifthAfterSixth(ds, s);
    DisplayAt(cfg, steps, failed);
    PollAfter(cfg, steps, failed);
    DisplayAt(cfg, steps + [PollSucceeds], Polled(failed));
  }

  // ---- A delivered bitmap can be evicted by an older one ----

  function Bitmaps(entries: seq<Entry>, ts: int): (es: seq<Event>)
    ensures |es| == |entries|
    ensures forall i :: 0 <= i < |entries| ==> es[i] == Event(ts, BitmapPayload(entries[i].key, entries[i].data))
  {
    seq(|entries|, i requires 0 <= i < |entries| => Event(ts, BitmapPayload(entries[i].key, entries[i].data)))
  }

  lemma OneIsStored(s: seq<Entry>, e: Entry, maxBytes: int)
    requires |e.data| <= maxBytes
    ensures Stored(s, e.key, e.data, 1, maxBytes) == [e]
  {
    var t := Touch(s, e.key, e.data);
    assert t[|t| - 1..] == [e];
    OneFits(e, maxBytes);
    TrimIsLongestFittingSuffix(t, 1, maxBytes, |t| - 1);
  }

  lemma OneFits(e: Entry, maxBytes: int)
    requires |e.data| <= maxBytes
    ensures Fits([e], 1, maxBytes)
  {
    assert Init([e]) == [];
  }

  lemma LastBitmap(cfg: Config, es: seq<Event>, e: Entry)
    requires cfg.maxSize == 1 && |e.data| <= cfg.maxBytes
    requires es != [] && es[|es| - 1].payload == BitmapPayload(e.key, e.data)
    ensures ProcessAll(cfg, EMPTY_VIEW, es).cache == [e]
  {
    OneIsStored(ProcessAll(cfg, EMPTY_VIEW, es[..|es| - 1]).cache, e, cfg.maxBytes);
  }

  lemma CacheAt(cfg: Config, steps: seq<Step>, c: Core, e: Entry)
    requires Reaches(cfg, steps, c) && cfg.maxSize == 1 && |e.data| <= cfg.maxBytes
    requires c.processed != [] && c.processed[|c.processed| - 1].payload == BitmapPayload(e.key, e.data)
    ensures Run(cfg, steps).client.view.cache == [e]
    ensures Run(cfg, steps).delivered == c.delivered && |Run(cfg, steps).log| == |c.sorted|
  {
    ViewIsWhatWasProcessed(cfg, steps);
    LastBitmap(cfg, c.processed, e);
  }

  /**
   * The same with six bitmaps and a cache of one: everything is delivered and the sixth is
   * held, and then the fifth is in its place.
   */
  lemma RedeliveryCanEvict(cfg: Config, entries: seq<Entry>) returns (steps: seq<Step>)
    requires |entries| == 6 && cfg.maxSize == 1
    requires |entries[4].data| <= cfg.maxBytes && |entries[5].data| <= cfg.maxBytes
    ensures AllowedRun(cfg, steps + [PollSucceeds])
    ensures Run(cfg, steps).delivered == |Run(cfg, steps).log|
    ensures Run(cfg, steps).client.view.cache == [entries[5]]
    ensures Run(cfg, steps + [PollSucceeds]).client.view.cache == [entries[4]]
  {
    var es := Bitmaps(entries, 4000);
    var s := SEED + es;
    var c := Core(s, 4000, 5, true, 9, s);
    steps := SixThenFailure(cfg, es, c);
    var failed := SyncCore.Failed(c);
    ShortPage(s, 4000, failed);
    CacheAt(cfg, steps, failed, entries[5]);
    PollAfter(cfg, steps, failed);
    CacheAt(cfg, steps + [PollSucceeds], Polled(failed), entries[4]);
  }

  // ---- A pinned cursor ----

  lemma FiftyOneStamps(es: seq<Event>, c: Core)
    requires |es| == 51 && (forall i :: 0 <= i < 50 ==> es[i].ts == 3000) && es[50].ts > 3000
    requires Sorted(c.sorted) && c.sorted == SEED + es && c.since == 0
    ensures !Drainable(c)
  {
    LowerBoundIs(c.sorted, 0, 0);
    assert SameStampPage(c.sorted, 2);
  }

  /** Fifty events that share the last seed event's timestamp, and one after them, are never all delivered. */
  lemma FiftyEqualStampsPin(cfg: Config, es: seq<Event>, m: nat)
    requires |es| == 51 && (forall i :: 0 <= i < 50 ==> es[i].ts == 3000) && es[50].ts > 3000
    ensures AllowedRun(cfg, Appends(es)) && !Drainable(CoreOf(Run(cfg, Appends(es))))
    ensures PollTimes(cfg, Run(cfg, Appends(es)), m).delivered < |Run(cfg, Appends(es)).log|
  {
    var steps := Appends(es);
    AppendsCore(cfg, es);
    var c := CoreOf(Run(cfg, steps));
    FiftyOneStamps(es, c);
    CatchUp(cfg, steps, 5 + Undelivered(c));
  }

  // ---- Repeated texts ----

  lemma TextsAt(cfg: Config, steps: seq<Step>, c: Core)
    requires Reaches(cfg, steps, c)
    ensures Run(cfg, steps).client.view.texts == TextsOf(c.processed)
  {
    MessagesAreTextsProcessed(cfg, steps);
  }

  /** In a run, what the next poll adds to the message list, and exactly when it repeats none of it. */
  lemma PollRepeatsTextsInRun(cfg: Config, steps: seq<Step>, c: Core)
    requires Reaches(cfg, steps, c)
    ensures Start(c) <= NewFrom(c) <= End(c) <= |c.sorted|
    ensures var before, after := Run(cfg, steps).client.view.texts, Run(cfg, steps + [PollSucceeds]).client.view.texts;
      var again, fresh_ := TextsOf(c.sorted[Start(c)..NewFrom(c)]), TextsOf(c.sorted[NewFrom(c)..End(c)]);
      after == before + again + fresh_ && (after == before + fresh_ <==> RepeatsNoText(c))
  {
    NoLoss(cfg, steps);
    PollRepeatsTexts(c);
    PollAfter(cfg, steps, c);
    TextsAt(cfg, steps, c);
    TextsAt(cfg, steps + [PollSucceeds], Polled(c));
  }

  /** The message list is the texts processed, and every poll keeps it so. */
  ghost predicate ShowsTexts(w: World) {
    w.client.view.texts == TextsOf(w.processed)
  }

  lemma {:induction false} ProcessAddsTexts(cfg: Config, v: View, es: seq<Event>)
    ensures ProcessAll(cfg, v, es).texts == v.texts + TextsOf(es)
  {
    if es == [] {
      assert v.texts + [] == v.texts;
    } else {
      ProcessAddsTexts(cfg, v, es[..|es| - 1]);
    }
  }

  lemma PollShowsTexts(cfg: Config, w: World)
    requires ShowsTexts(w)
    ensures ShowsTexts(Next(cfg, w, PollSucceeds))
  {
    var page := Client.NextPage(w.log, w.client);
    ProcessAddsTexts(cfg, w.client.view, page);
    TextsOfConcat(w.processed, page);
  }

  lemma {:induction false} PollTimesShowsTexts(cfg: Config, w: World, n: nat)
    requires ShowsTexts(w)
    ensures ShowsTexts(PollTimes(cfg, w, n))
    decreases n
  {
    if n > 0 {
      PollShowsTexts(cfg, w);
      PollTimesShowsTexts(cfg, Next(cfg, w, PollSucceeds), n - 1);
    }
  }

  /** After a run, polling an idle log lengthens the message list by the texts at the cursor, every time. */
  lemma IdleRunRepeatsTexts(cfg: Config, steps: seq<Step>, c: Core, n: nat)
    requires Reaches(cfg, steps, c) && Idle(c)
    ensures |PollTimes(cfg, Run(cfg, steps), n).client.view.texts|
         == |Run(cfg, steps).client.view.texts| + n * |TextsOf(c.sorted[Start(c)..])|
  {
    var w := Run(cfg, steps);
    IdlePollsRepeatTexts(c, n);
    PollTimesRefines(cfg, w, n);
    MessagesAreTextsProcessed(cfg, steps);
    PollTimesShowsTexts(cfg, w, n);
  }

  lemma OneEventAtCursor(s: seq<Event>, ts: int, c: Core)
    requires Sorted(s) && |s| == 4 && s[2].ts < ts == s[3].ts && c == Core(s, ts, 5, true, 4, s) && Inv(c)
    requires s[3].payload.TextMessage?
    ensures Idle(c) && |TextsOf(c.sorted[Start(c)..])| == 1
  {
    LowerBoundIs(s, ts, 3);
    assert s[3..] == [s[3]];
    OneText(s[3]);
  }

  /** One text appended and delivered by one poll is shown once more by every further poll. */
  lemma TextIsRepeated(cfg: Config, e: Event, n: nat)
    requires e.payload.TextMessage? && e.ts > 3000
    ensures var steps := Appends([e]) + [PollSucceeds];
      && AllowedRun(cfg, steps) && Run(cfg, steps).delivered == |Run(cfg, steps).log|
      && |PollTimes(cfg, Run(cfg, steps), n).client.view.texts| == |Run(cfg, steps).client.view.texts| + n
  {
    var s := SEED + [e];
    var c := Core(s, e.ts, 5, true, 4, s);
    var steps := AppendAndPoll(cfg, [e]);
    NoLoss(cfg, steps);
    OneEventAtCursor(s, e.ts, c);
    IdleRunRepeatsTexts(cfg, steps, c, n);
  }

  lemma OneText(e: Event)
    requires e.payload.TextMessage?
    ensures |TextsOf([e])| == 1
  {
    assert [e][..0] == [];
  }
}
