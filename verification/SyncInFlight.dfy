/**
 * Polls that take time: the server answers, the log may grow, and only then does the answer
 * reach the phone or get lost.
 */
module SyncInFlight {
  import opened Wrappers
  import opened Events
  import opened EventLog
  import opened EventProcessing
  import opened SyncCore
  import opened SyncCatchUp
  import opened SyncProtocol
  import Client = SyncClient

  /** An answer under way, and how far into the sorted log of that time it reaches. */
  datatype Answer = Answer(page: seq<Event>, upTo: nat)

  datatype Flight = Flight(world: World, answer: Option<Answer>)

  const LANDED := Flight(START, None)

  datatype Leg = Add(event: Event) | Ask | Arrive | Lose

  function AnswerTo(w: World): Answer {
    var page := Client.NextPage(w.log, w.client);
    Answer(page, LowerBound(StableSort(w.log), w.client.since) + |page|)
  }

  function Take(cfg: Config, w: World, a: Answer): World {
    World(w.log, Client.Received(cfg, w.client, a.page), Max(w.delivered, a.upTo), w.processed + a.page)
  }

  /** The phone has at most one poll under way; a poll may also fail before it is answered. */
  function Fly(cfg: Config, f: Flight, leg: Leg): Flight {
    match leg
    case Add(e) => f.(world := Next(cfg, f.world, Append(e)))
    case Ask => if f.answer.None? then f.(answer := Some(AnswerTo(f.world))) else f
    case Arrive => if f.answer.None? then f else Flight(Take(cfg, f.world, f.answer.value), None)
    case Lose => Flight(Next(cfg, f.world, PollFails), None)
  }

  function From(cfg: Config, f: Flight, legs: seq<Leg>): Flight {
    if legs == [] then f else Fly(cfg, From(cfg, f, legs[..|legs| - 1]), legs[|legs| - 1])
  }

  /** The world once the answer under way has arrived. */
  function Settled(cfg: Config, f: Flight): World {
    if f.answer.None? then f.world else Take(cfg, f.world, f.answer.value)
  }

  // ---- No answer arrives after an append behind it: as if every poll were one step ----

  /** Since the answer under way was given, an event has been added behind the cursor it will set. */
  predicate Overtaken(cfg: Config, legs: seq<Leg>) {
    if legs == [] then false
    else
      var f, leg := From(cfg, LANDED, legs[..|legs| - 1]), legs[|legs| - 1];
      match leg
      case Add(e) =>
        f.answer.Some? && (Overtaken(cfg, legs[..|legs| - 1]) || e.ts < Settled(cfg, f).client.since)
      case Ask => Overtaken(cfg, legs[..|legs| - 1])
      case Arrive => false
      case Lose => false
  }

  /** No event is added behind the cursor, and no overtaken answer arrives. */
  predicate Careful(cfg: Config, legs: seq<Leg>, leg: Leg) {
    && (leg.Add? ==> From(cfg, LANDED, legs).world.client.since <= leg.event.ts)
    && (leg.Arrive? ==> !Overtaken(cfg, legs))
  }

  predicate CarefulRun(cfg: Config, legs: seq<Leg>) {
    legs != [] ==> CarefulRun(cfg, legs[..|legs| - 1]) && Careful(cfg, legs[..|legs| - 1], legs[|legs| - 1])
  }

  lemma NoneIsOvertaken(cfg: Config, legs: seq<Leg>)
    requires From(cfg, LANDED, legs).answer.None?
    ensures !Overtaken(cfg, legs)
  {
  }

  /** Runs of one-step polls: if the answer under way is lost without a trace, and if it arrives. */
  datatype Steps = Steps(lost: seq<Step>, arrived: seq<Step>)

  /** A poll takes effect where it was answered. */
  function StepsOf(cfg: Config, legs: seq<Leg>): Steps {
    if legs == [] then Steps([], [])
    else
      var before, leg := StepsOf(cfg, legs[..|legs| - 1]), legs[|legs| - 1];
      match leg
      case Add(e) => Steps(before.lost + [Append(e)], before.arrived + [Append(e)])
      case Ask =>
        if From(cfg, LANDED, legs[..|legs| - 1]).answer.None? then Steps(before.lost, before.lost + [PollSucceeds])
        else before
      case Arrive => Steps(before.arrived, before.arrived)
      case Lose => Steps(before.lost + [PollFails], before.lost + [PollFails])
  }

  /** The run is allowed and leads to `w`. */
  ghost predicate LeadsTo(cfg: Config, steps: seq<Step>, w: World) {
    AllowedRun(cfg, steps) && Run(cfg, steps) == w
  }

  lemma StepAfter(cfg: Config, steps: seq<Step>, w: World, step: Step)
    requires LeadsTo(cfg, steps, w) && Allowed(w, step)
    ensures LeadsTo(cfg, steps + [step], Next(cfg, w, step))
  {
    RunSnoc(cfg, steps, step);
  }

  lemma PollIsTake(cfg: Config, w: World)
    ensures Next(cfg, w, PollSucceeds) == Take(cfg, w, AnswerTo(w))
  {
  }

  lemma TakeAfterAppend(cfg: Config, w: World, a: Answer, e: Event)
    ensures Take(cfg, Next(cfg, w, Append(e)), a) == Next(cfg, Take(cfg, w, a), Append(e))
  {
  }

  /** The steps lead to the world, and if the answer under way may still arrive, to the one it will leave. */
  ghost predicate Matches(cfg: Config, s: Steps, f: Flight, overtaken: bool) {
    LeadsTo(cfg, s.lost, f.world) && (!overtaken ==> LeadsTo(cfg, s.arrived, Settled(cfg, f)))
  }

  lemma AddMatches(cfg: Config, s: Steps, f: Flight, e: Event, before: bool, after: bool)
    requires Matches(cfg, s, f, before) && f.world.client.since <= e.ts
    requires !after ==> !before && Settled(cfg, f).client.since <= e.ts
    ensures Matches(cfg, Steps(s.lost + [Append(e)], s.arrived + [Append(e)]), Fly(cfg, f, Add(e)), after)
  {
    StepAfter(cfg, s.lost, f.world, Append(e));
    if !after {
      StepAfter(cfg, s.arrived, Settled(cfg, f), Append(e));
      if f.answer.Some? { TakeAfterAppend(cfg, f.world, f.answer.value, e); }
    }
  }

  lemma AskMatches(cfg: Config, s: Steps, f: Flight, before: bool)
    requires Matches(cfg, s, f, before) && f.answer.None?
    ensures Matches(cfg, Steps(s.lost, s.lost + [PollSucceeds]), Fly(cfg, f, Ask), false)
  {
    StepAfter(cfg, s.lost, f.world, PollSucceeds);
    PollIsTake(cfg, f.world);
  }

  lemma LoseMatches(cfg: Config, s: Steps, f: Flight, before: bool)
    requires Matches(cfg, s, f, before)
    ensures Matches(cfg, Steps(s.lost + [PollFails], s.lost + [PollFails]), Fly(cfg, f, Lose), false)
  {
    StepAfter(cfg, s.lost, f.world, PollFails);
  }

  /**
   * Whatever happens between answers and arrivals, if no event is added behind the cursor and no
   * overtaken answer arrives, the world is that of an allowed run in which every poll that
   * arrives is one step, taken where it was answered.  So every theorem about allowed runs
   * holds of it.
   */
  lemma {:induction false} InFlightRefines(cfg: Config, legs: seq<Leg>)
    requires CarefulRun(cfg, legs)
    ensures Matches(cfg, StepsOf(cfg, legs), From(cfg, LANDED, legs), Overtaken(cfg, legs))
  {
    if legs != [] {
      var init, leg := legs[..|legs| - 1], legs[|legs| - 1];
      InFlightRefines(cfg, init);
      var s, f, before := StepsOf(cfg, init), From(cfg, LANDED, init), Overtaken(cfg, init);
      if f.answer.None? { NoneIsOvertaken(cfg, init); }
      match leg
      case Add(e) => AddMatches(cfg, s, f, e, before, Overtaken(cfg, legs));
      case Ask => if f.answer.None? { AskMatches(cfg, s, f, before); }
      case Arrive =>
      case Lose => LoseMatches(cfg, s, f, before);
    }
  }

  /** For instance: everything up to the frontier has been handed over, at least once. */
  lemma NoLossInFlight(cfg: Config, legs: seq<Leg>)
    requires CarefulRun(cfg, legs)
    ensures var w := From(cfg, LANDED, legs).world;
      Inv(CoreOf(w)) && multiset(StableSort(w.log)[..w.delivered]) <= multiset(w.processed)
  {
    InFlightRefines(cfg, legs);
    NoLoss(cfg, StepsOf(cfg, legs).lost);
    AtLeastOnce(cfg, StepsOf(cfg, legs).lost);
  }

  // ---- What is behind the cursor and not processed is lost ----

  /** In the log, behind the cursor and never handed over. */
  predicate Missed(w: World, e: Event) {
    e in w.log && e.ts < w.client.since && e !in w.processed
  }

  lemma DeliveredIsProcessed(log: seq<Event>, delivered: nat, processed: seq<Event>, e: Event, i: nat)
    requires i < delivered <= |StableSort(log)| && e == StableSort(log)[i]
    requires multiset(StableSort(log)[..delivered]) <= multiset(processed)
    ensures e in processed
  {
    assert e in StableSort(log)[..delivered];
    assert e in multiset(StableSort(log)[..delivered]);
    assert e in multiset(processed);
  }

  lemma SortHas(log: seq<Event>, e: Event) returns (i: nat)
    requires e in log
    ensures i < |StableSort(log)| && StableSort(log)[i] == e
  {
    StableSortPermutes(log);
    assert e in multiset(StableSort(log));
    i :| 0 <= i < |StableSort(log)| && StableSort(log)[i] == e;
  }

  /** A careful run misses nothing. */
  lemma NothingMissed(cfg: Config, legs: seq<Leg>, e: Event)
    requires CarefulRun(cfg, legs)
    ensures !Missed(From(cfg, LANDED, legs).world, e)
  {
    var w := From(cfg, LANDED, legs).world;
    NoLossInFlight(cfg, legs);
    if e in w.log && e.ts < w.client.since {
      var i := SortHas(w.log, e);
      DeliveredIsProcessed(w.log, w.delivered, w.processed, e, i);
    }
  }

  predicate NoneBefore(es: seq<Event>, t: int) {
    forall i :: 0 <= i < |es| ==> t <= es[i].ts
  }

  lemma PageNotBefore(w: World, t: int)
    requires t <= w.client.since
    ensures NoneBefore(Client.NextPage(w.log, w.client), t)
  {
    var s, lb := StableSort(w.log), LowerBound(StableSort(w.log), w.client.since);
    assert Client.NextPage(w.log, w.client) <= s[lb..];
  }

  /** The cursor has reached `t`, and so has whatever is under way. */
  ghost predicate Past(f: Flight, t: int) {
    t <= f.world.client.since && (f.answer.Some? ==> NoneBefore(f.answer.value.page, t))
  }

  lemma LegStaysPast(cfg: Config, f: Flight, leg: Leg, t: int)
    requires Past(f, t)
    ensures Past(Fly(cfg, f, leg), t)
  {
    PageNotBefore(f.world, t);
  }

  /** From the time on that the cursor has reached `t`, nothing earlier is processed any more. */
  lemma {:induction false} NothingEarlier(cfg: Config, f: Flight, legs: seq<Leg>, t: int) returns (later: seq<Event>)
    requires Past(f, t)
    ensures Past(From(cfg, f, legs), t) && NoneBefore(later, t)
    ensures From(cfg, f, legs).world.processed == f.world.processed + later
  {
    if legs == [] {
      later := [];
    } else {
      var g := From(cfg, f, legs[..|legs| - 1]);
      later := NothingEarlier(cfg, f, legs[..|legs| - 1], t);
      LegStaysPast(cfg, g, legs[|legs| - 1], t);
      if legs[|legs| - 1].Arrive? && g.answer.Some? { later := later + g.answer.value.page; }
    }
  }

  /** Nothing behind the cursor is ever under way. */
  lemma {:induction false} PastItsCursor(cfg: Config, legs: seq<Leg>)
    ensures Past(From(cfg, LANDED, legs), From(cfg, LANDED, legs).world.client.since)
  {
    if legs != [] {
      var f := From(cfg, LANDED, legs[..|legs| - 1]);
      PastItsCursor(cfg, legs[..|legs| - 1]);
      PageNotBefore(f.world, f.world.client.since);
    }
  }

  /** What is missed is never handed over, whatever happened before and whatever happens next. */
  lemma MissedForever(cfg: Config, before: seq<Leg>, e: Event, later: seq<Leg>)
    requires Missed(From(cfg, LANDED, before).world, e)
    ensures e !in From(cfg, From(cfg, LANDED, before), later).world.processed
  {
    var f := From(cfg, LANDED, before);
    PastItsCursor(cfg, before);
    var es := NothingEarlier(cfg, f, later, f.world.client.since);
  }

  /** An event that is new and added behind the cursor is missed, so the rule for additions is needed. */
  lemma AddedBehindCursorIsLost(cfg: Config, before: seq<Leg>, e: Event, later: seq<Leg>)
    requires var w := From(cfg, LANDED, before).world; e.ts < w.client.since && e !in w.processed
    ensures e !in From(cfg, From(cfg, LANDED, before + [Add(e)]), later).world.processed
  {
    FromSnoc(cfg, LANDED, before, Add(e));
    MissedForever(cfg, before + [Add(e)], e, later);
  }

  // ---- An append behind the answer under way is lost if and only if that answer arrives ----

  lemma FromSnoc(cfg: Config, f: Flight, legs: seq<Leg>, leg: Leg)
    ensures From(cfg, f, legs + [leg]) == Fly(cfg, From(cfg, f, legs), leg)
  {
    assert (legs + [leg])[..|legs|] == legs;
  }

  lemma CarefulSnoc(cfg: Config, legs: seq<Leg>, leg: Leg)
    ensures CarefulRun(cfg, legs + [leg]) <==> CarefulRun(cfg, legs) && Careful(cfg, legs, leg)
  {
    assert (legs + [leg])[..|legs|] == legs;
  }

  lemma {:induction false} FromConcat(cfg: Config, f: Flight, a: seq<Leg>, b: seq<Leg>)
    ensures From(cfg, f, a + b) == From(cfg, From(cfg, f, a), b)
  {
    if b == [] {
      assert a + b == a;
    } else {
      var init, leg := b[..|b| - 1], b[|b| - 1];
      FromConcat(cfg, f, a, init);
      FromSnoc(cfg, f, a + init, leg);
      assert a + b == (a + init) + [leg];
    }
  }

  /** The answer under way neither arrives nor gets lost. */
  predicate Waiting(legs: seq<Leg>) {
    forall i :: 0 <= i < |legs| ==> legs[i].Add? || legs[i].Ask?
  }

  lemma {:induction false} WaitingKeeps(cfg: Config, f: Flight, wait: seq<Leg>)
    requires f.answer.Some? && Waiting(wait)
    ensures var g := From(cfg, f, wait);
      && g.answer == f.answer && g.world.client == f.world.client && g.world.processed == f.world.processed
      && f.world.log <= g.world.log
  {
    if wait != [] { WaitingKeeps(cfg, f, wait[..|wait| - 1]); }
  }

  /** An event new to the phone is added behind the answer under way, though not behind the cursor. */
  ghost predicate AddedBehind(cfg: Config, before: seq<Leg>, e: Event) {
    var f := From(cfg, LANDED, before);
    && f.answer.Some? && f.world.client.since <= e.ts < Settled(cfg, f).client.since
    && e !in f.world.processed && e !in f.answer.value.page
  }

  /** From the addition up to the answer's arrival or loss. */
  function Until(before: seq<Leg>, e: Event, wait: seq<Leg>, fate: Leg): seq<Leg> {
    before + ([Add(e)] + wait) + [fate]
  }

  lemma AddedAndWaited(cfg: Config, before: seq<Leg>, e: Event, wait: seq<Leg>)
    requires AddedBehind(cfg, before, e) && Waiting(wait)
    ensures var f, g := From(cfg, LANDED, before), From(cfg, LANDED, before + ([Add(e)] + wait));
      && g.answer == f.answer && g.world.client == f.world.client && g.world.processed == f.world.processed
      && e in g.world.log
  {
    var f := From(cfg, LANDED, before);
    FromConcat(cfg, LANDED, before, [Add(e)] + wait);
    FromConcat(cfg, f, [Add(e)], wait);
    FromSnoc(cfg, f, [], Add(e));
    assert [] + [Add(e)] == [Add(e)];
    var added := Fly(cfg, f, Add(e));
    WaitingKeeps(cfg, added, wait);
    assert added.world.log[|f.world.log|] == e;
    assert From(cfg, added, wait).world.log[|f.world.log|] == e;
  }

  /** Whatever is added while waiting, the event is missed if and only if the answer arrives. */
  lemma MissedIffArrives(cfg: Config, before: seq<Leg>, e: Event, wait: seq<Leg>, fate: Leg)
    requires AddedBehind(cfg, before, e) && Waiting(wait) && (fate.Arrive? || fate.Lose?)
    ensures Missed(From(cfg, LANDED, Until(before, e, wait, fate)).world, e) <==> fate.Arrive?
  {
    AddedAndWaited(cfg, before, e, wait);
    FromSnoc(cfg, LANDED, before + ([Add(e)] + wait), fate);
  }

  // ---- An answer that is lost loses nothing ----

  function PollLegs(n: nat): seq<Leg> {
    if n == 0 then [] else [Ask, Arrive] + PollLegs(n - 1)
  }

  lemma OnePoll(cfg: Config, f: Flight)
    requires f.answer.None?
    ensures From(cfg, f, [Ask, Arrive]) == Flight(Next(cfg, f.world, PollSucceeds), None)
  {
    FromSnoc(cfg, f, [], Ask);
    FromSnoc(cfg, f, [] + [Ask], Arrive);
    assert [] + [Ask] + [Arrive] == [Ask, Arrive];
    PollIsTake(cfg, f.world);
  }

  /** One poll more of the count, and of the legs. */
  lemma PollFirstOf(cfg: Config, f: Flight, n: nat) returns (next: World)
    requires f.answer.None? && n > 0
    ensures From(cfg, f, PollLegs(n)) == From(cfg, Flight(next, None), PollLegs(n - 1))
    ensures PollTimes(cfg, f.world, n) == PollTimes(cfg, next, n - 1)
  {
    next := Next(cfg, f.world, PollSucceeds);
    OnePoll(cfg, f);
    FromConcat(cfg, f, [Ask, Arrive], PollLegs(n - 1));
  }

  lemma {:induction false} PollLegsPoll(cfg: Config, f: Flight, n: nat)
    requires f.answer.None?
    ensures From(cfg, f, PollLegs(n)) == Flight(PollTimes(cfg, f.world, n), None)
    decreases n
  {
    if n > 0 {
      var next := PollFirstOf(cfg, f, n);
      PollLegsPoll(cfg, Flight(next, None), n - 1);
    }
  }

  lemma AskIsCareful(cfg: Config, legs: seq<Leg>)
    requires CarefulRun(cfg, legs) && !Overtaken(cfg, legs)
    ensures CarefulRun(cfg, legs + [Ask]) && !Overtaken(cfg, legs + [Ask])
  {
    CarefulSnoc(cfg, legs, Ask);
    assert (legs + [Ask])[..|legs|] == legs;
  }

  lemma ArriveIsCareful(cfg: Config, legs: seq<Leg>)
    requires CarefulRun(cfg, legs) && !Overtaken(cfg, legs)
    ensures CarefulRun(cfg, legs + [Arrive]) && From(cfg, LANDED, legs + [Arrive]).answer.None?
  {
    CarefulSnoc(cfg, legs, Arrive);
    FromSnoc(cfg, LANDED, legs, Arrive);
  }

  lemma OnePollIsCareful(cfg: Config, legs: seq<Leg>)
    requires CarefulRun(cfg, legs) && From(cfg, LANDED, legs).answer.None?
    ensures CarefulRun(cfg, legs + [Ask, Arrive]) && From(cfg, LANDED, legs + [Ask, Arrive]).answer.None?
  {
    NoneIsOvertaken(cfg, legs);
    AskIsCareful(cfg, legs);
    ArriveIsCareful(cfg, legs + [Ask]);
    assert (legs + [Ask]) + [Arrive] == legs + [Ask, Arrive];
  }

  lemma PollFirst(legs: seq<Leg>, n: nat)
    requires n > 0
    ensures legs + PollLegs(n) == (legs + [Ask, Arrive]) + PollLegs(n - 1)
  {
    assert legs + ([Ask, Arrive] + PollLegs(n - 1)) == (legs + [Ask, Arrive]) + PollLegs(n - 1);
  }

  lemma {:induction false} PollLegsAreCareful(cfg: Config, legs: seq<Leg>, n: nat)
    requires CarefulRun(cfg, legs) && From(cfg, LANDED, legs).answer.None?
    ensures CarefulRun(cfg, legs + PollLegs(n))
    decreases n
  {
    if n == 0 {
      assert legs + PollLegs(n) == legs;
    } else {
      OnePollIsCareful(cfg, legs);
      PollLegsAreCareful(cfg, legs + [Ask, Arrive], n - 1);
      PollFirst(legs, n);
    }
  }

  lemma HandedOver(cfg: Config, legs: seq<Leg>, w: World, e: Event, i: nat)
    requires CarefulRun(cfg, legs) && From(cfg, LANDED, legs).world == w
    requires i < w.delivered <= |StableSort(w.log)| && StableSort(w.log)[i] == e
    ensures e in w.processed
  {
    NoLossInFlight(cfg, legs);
    DeliveredIsProcessed(w.log, w.delivered, w.processed, e, i);
  }

  lemma SameSorted(cfg: Config, w: World, n: nat)
    ensures StableSort(PollTimes(cfg, w, n).log) == StableSort(w.log)
  {
    PollTimesRefines(cfg, w, n);
    PollsKeepLog(CoreOf(w), n);
  }

  /** After a careful run with nothing under way, a drainable log can still be handed over whole. */
  lemma AllIsHandedOver(cfg: Config, legs: seq<Leg>, e: Event) returns (later: seq<Leg>)
    requires CarefulRun(cfg, legs) && From(cfg, LANDED, legs).answer.None?
    requires e in From(cfg, LANDED, legs).world.log && Drainable(CoreOf(From(cfg, LANDED, legs).world))
    ensures e in From(cfg, From(cfg, LANDED, legs), later).world.processed
  {
    var f := From(cfg, LANDED, legs);
    NoLossInFlight(cfg, legs);
    var n := 5 + Undelivered(CoreOf(f.world));
    later := PollLegs(n);
    InFlightRefines(cfg, legs);
    CatchUp(cfg, StepsOf(cfg, legs).lost, n);
    PollLegsPoll(cfg, f, n);
    PollLegsAreCareful(cfg, legs, n);
    FromConcat(cfg, LANDED, legs, later);
    SameSorted(cfg, f.world, n);
    var i := SortHas(f.world.log, e);
    HandedOver(cfg, legs + later, PollTimes(cfg, f.world, n), e, i);
  }

  lemma LoseIsCareful(cfg: Config, before: seq<Leg>, e: Event, wait: seq<Leg>)
    requires CarefulRun(cfg, before + ([Add(e)] + wait)) && AddedBehind(cfg, before, e) && Waiting(wait)
    ensures var legs := Until(before, e, wait, Lose);
      CarefulRun(cfg, legs) && From(cfg, LANDED, legs).answer.None? && e in From(cfg, LANDED, legs).world.log
  {
    var legs := before + ([Add(e)] + wait);
    AddedAndWaited(cfg, before, e, wait);
    CarefulSnoc(cfg, legs, Lose);
    FromSnoc(cfg, LANDED, legs, Lose);
  }

  /**
   * An event added behind the answer under way, but not behind the cursor, is never handed over,
   * whatever happens later, if and only if that answer arrives.  That a lost answer's
   * successors get to it needs, as always, a log that can be drained.
   */
  lemma LostIffArrives(cfg: Config, before: seq<Leg>, e: Event, wait: seq<Leg>, fate: Leg)
    requires CarefulRun(cfg, before + ([Add(e)] + wait)) && AddedBehind(cfg, before, e) && Waiting(wait)
    requires fate.Arrive? || (fate.Lose? && Drainable(CoreOf(From(cfg, LANDED, Until(before, e, wait, fate)).world)))
    ensures (forall later :: e !in From(cfg, From(cfg, LANDED, Until(before, e, wait, fate)), later).world.processed)
       <==> fate.Arrive?
  {
    var legs := Until(before, e, wait, fate);
    if fate.Arrive? {
      MissedIffArrives(cfg, before, e, wait, fate);
      forall later ensures e !in From(cfg, From(cfg, LANDED, legs), later).world.processed {
        MissedForever(cfg, legs, e, later);
      }
    } else {
      LoseIsCareful(cfg, before, e, wait);
      var later := AllIsHandedOver(cfg, legs, e);
      assert e in From(cfg, From(cfg, LANDED, legs), later).world.processed;
    }
  }

  lemma SeedIsSorted()
    ensures StableSort(SEED) == SEED && LowerBound(SEED, 0) == 0
  {
    assert Sorted(SEED);
    SortedLogIsFixed(SEED);
    LowerBoundIs(SEED, 0, 0);
  }

  lemma FirstAnswer()
    ensures AnswerTo(START).page == SEED
  {
    SeedIsSorted();
    assert SEED[0..] == SEED;
  }

  /**
   * It happens: an event stamped before the third seed event and added during the first poll is
   * never handed over once that poll's answer has arrived.
   */
  lemma AppendCanBeLost(cfg: Config, e: Event, later: seq<Leg>)
    requires 0 <= e.ts < 3000 && e !in SEED
    ensures AddedBehind(cfg, [Ask], e)
    ensures e in From(cfg, LANDED, Until([Ask], e, [], Arrive)).world.log
    ensures e !in From(cfg, From(cfg, LANDED, Until([Ask], e, [], Arrive)), later).world.processed
  {
    FirstAnswer();
    FromSnoc(cfg, LANDED, [], Ask);
    assert [] + [Ask] == [Ask];
    MissedIffArrives(cfg, [Ask], e, [], Arrive);
    MissedForever(cfg, Until([Ask], e, [], Arrive), e, later);
  }
}
