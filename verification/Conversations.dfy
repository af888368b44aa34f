/** Conversation tabs: one for the lead agent and at most two for sub-agents. */
module Conversations {

  datatype Message = Message(sender: string, text: string, timestampMs: int)

  const LEAD := "lead"
  const MAX_SUB_AGENT_TABS := 2

  datatype Tabs = Tabs(lead: seq<Message>, order: seq<string>, byAgent: map<string, seq<Message>>)

  const NO_TABS := Tabs([], [], map[])

  /** The order list and the map name the same agents, each once. */
  ghost predicate WellFormed(t: Tabs) {
    && |t.order| <= MAX_SUB_AGENT_TABS
    && (forall i, j :: 0 <= i < j < |t.order| ==> t.order[i] != t.order[j])
    && (forall a :: a in t.order <==> a in t.byAgent)
  }

  function WithSubAgent(t: Tabs, agent: string): (r: Tabs)
    ensures WellFormed(t) ==> WellFormed(r)
  {
    if agent in t.order || |t.order| >= MAX_SUB_AGENT_TABS then t
    else t.(order := t.order + [agent], byAgent := t.byAgent[agent := []])
  }

  function WithSubAgentMessage(t: Tabs, agent: string, m: Message): (r: Tabs)
    ensures WellFormed(t) ==> WellFormed(r)
  {
    if agent in t.byAgent then t.(byAgent := t.byAgent[agent := t.byAgent[agent] + [m]]) else t
  }

  /** What the poll loop does with one text message. */
  function Route(t: Tabs, m: Message): (r: Tabs)
    ensures WellFormed(t) ==> WellFormed(r)
  {
    if m.sender == LEAD then t.(lead := t.lead + [m])
    else WithSubAgentMessage(WithSubAgent(t, m.sender), m.sender, m)
  }

  function RouteAll(t: Tabs, ms: seq<Message>): (r: Tabs)
    ensures WellFormed(t) ==> WellFormed(r)
  {
    if ms == [] then t else Route(RouteAll(t, ms[..|ms| - 1]), ms[|ms| - 1])
  }

  // ---- Routing is a filter ----

  /** The messages of one agent, in order. */
  function From(ms: seq<Message>, agent: string): seq<Message> {
    if ms == [] then []
    else
      var m := ms[|ms| - 1];
      From(ms[..|ms| - 1], agent) + (if m.sender == agent then [m] else [])
  }

  /** Every agent but the lead, in order of first appearance. */
  function Appearances(ms: seq<Message>): seq<string> {
    if ms == [] then []
    else
      var seen := Appearances(ms[..|ms| - 1]);
      var a := ms[|ms| - 1].sender;
      if a == LEAD || a in seen then seen else seen + [a]
  }

  function FirstTwo(agents: seq<string>): seq<string> {
    if |agents| <= 2 then agents else agents[..2]
  }

  lemma {:induction false} UnseenSendsNothing(ms: seq<Message>, agent: string)
    requires agent != LEAD && agent !in Appearances(ms)
    ensures From(ms, agent) == []
  {
    if ms != [] {
      assert agent !in Appearances(ms[..|ms| - 1]);
      UnseenSendsNothing(ms[..|ms| - 1], agent);
    }
  }

  lemma {:induction false} AppearancesAreDistinct(ms: seq<Message>)
    ensures forall i, j :: 0 <= i < j < |Appearances(ms)| ==> Appearances(ms)[i] != Appearances(ms)[j]
    ensures LEAD !in Appearances(ms)
  {
    if ms != [] { AppearancesAreDistinct(ms[..|ms| - 1]); }
  }

  /** The tabs are the in-order filters of the messages `ms`. */
  ghost predicate Filtered(t: Tabs, ms: seq<Message>) {
    && t.lead == From(ms, LEAD)
    && t.order == FirstTwo(Appearances(ms))
    && t.byAgent.Keys == (set a | a in t.order)
    && (forall a :: a in t.byAgent ==> t.byAgent[a] == From(ms, a))
  }

  lemma FromAppend(ms: seq<Message>, m: Message, agent: string)
    ensures From(ms + [m], agent) == if m.sender == agent then From(ms, agent) + [m] else From(ms, agent)
  {
    assert (ms + [m])[..|ms|] == ms;
  }

  lemma AppearancesAppend(ms: seq<Message>, m: Message)
    ensures Appearances(ms + [m])
         == if m.sender == LEAD || m.sender in Appearances(ms) then Appearances(ms)
            else Appearances(ms) + [m.sender]
  {
    assert (ms + [m])[..|ms|] == ms;
  }

  lemma RouteLeadFiltered(t: Tabs, ms: seq<Message>, m: Message)
    requires Filtered(t, ms) && m.sender == LEAD && LEAD !in t.byAgent
    ensures Filtered(Route(t, m), ms + [m])
  {
    AppearancesAppend(ms, m);
    FromAppend(ms, m, LEAD);
    forall a | a in t.byAgent ensures t.byAgent[a] == From(ms + [m], a) {
      FromAppend(ms, m, a);
    }
  }

  lemma RouteKnownFiltered(t: Tabs, ms: seq<Message>, m: Message)
    requires Filtered(t, ms) && m.sender != LEAD && m.sender in Appearances(ms)
    ensures Filtered(Route(t, m), ms + [m])
  {
    AppearancesAppend(ms, m);
    FromAppend(ms, m, LEAD);
    var r := Route(t, m);
    assert m.sender in t.order || |t.order| >= MAX_SUB_AGENT_TABS;
    assert r.byAgent.Keys == t.byAgent.Keys;
    forall a | a in r.byAgent ensures r.byAgent[a] == From(ms + [m], a) {
      FromAppend(ms, m, a);
    }
  }

  /** The new agent's tab starts with its first message. */
  lemma RouteOpensTab(t: Tabs, m: Message)
    requires m.sender != LEAD && m.sender !in t.order && m.sender !in t.byAgent && |t.order| < MAX_SUB_AGENT_TABS
    ensures Route(t, m).lead == t.lead && Route(t, m).order == t.order + [m.sender]
    ensures Route(t, m).byAgent == t.byAgent[m.sender := [m]]
  {
    assert [] + [m] == [m];
  }

  lemma FirstTwoGrows(agents: seq<string>, agent: string)
    requires |agents| < MAX_SUB_AGENT_TABS
    ensures FirstTwo(agents + [agent]) == FirstTwo(agents) + [agent]
  {
  }

  lemma NewTabHolds(t: Tabs, ms: seq<Message>, m: Message, a: string)
    requires Filtered(t, ms) && m.sender !in Appearances(ms) && m.sender != LEAD
    requires a in t.byAgent[m.sender := [m]]
    ensures t.byAgent[m.sender := [m]][a] == From(ms + [m], a)
  {
    FromAppend(ms, m, a);
    if a == m.sender {
      UnseenSendsNothing(ms, a);
      assert [] + [m] == [m];
    }
  }

  lemma OpenedTabFiltered(t: Tabs, r: Tabs, ms: seq<Message>, m: Message)
    requires Filtered(t, ms) && m.sender != LEAD && m.sender !in Appearances(ms)
    requires |Appearances(ms)| < MAX_SUB_AGENT_TABS
    requires r.lead == t.lead && r.order == t.order + [m.sender] && r.byAgent == t.byAgent[m.sender := [m]]
    ensures Filtered(r, ms + [m])
  {
    AppearancesAppend(ms, m);
    FromAppend(ms, m, LEAD);
    FirstTwoGrows(Appearances(ms), m.sender);
    forall a | a in r.byAgent ensures r.byAgent[a] == From(ms + [m], a) {
      NewTabHolds(t, ms, m, a);
    }
  }

  lemma RouteNewWithRoom(t: Tabs, ms: seq<Message>, m: Message)
    requires Filtered(t, ms) && m.sender != LEAD && m.sender !in Appearances(ms)
    requires |Appearances(ms)| < MAX_SUB_AGENT_TABS
    ensures Filtered(Route(t, m), ms + [m])
  {
    assert m.sender !in t.order;
    RouteOpensTab(t, m);
    OpenedTabFiltered(t, Route(t, m), ms, m);
  }

  /** The third sub-agent and later ones get no tab: their messages are dropped. */
  lemma RouteNewWithoutRoom(t: Tabs, ms: seq<Message>, m: Message)
    requires Filtered(t, ms) && m.sender != LEAD && m.sender !in Appearances(ms)
    requires |Appearances(ms)| >= MAX_SUB_AGENT_TABS
    ensures Route(t, m) == t && Filtered(t, ms + [m])
  {
    AppearancesAppend(ms, m);
    FromAppend(ms, m, LEAD);
    assert FirstTwo(Appearances(ms) + [m.sender]) == FirstTwo(Appearances(ms));
    forall a | a in t.byAgent ensures t.byAgent[a] == From(ms + [m], a) {
      FromAppend(ms, m, a);
    }
  }

  /**
   * Whatever messages arrive, the lead tab is the lead's messages in order, the sub-tabs are
   * the first two other agents in order of first appearance, and each sub-tab is exactly
   * that agent's messages in order.
   */
  lemma {:induction false} RoutingIsAFilter(ms: seq<Message>)
    ensures Filtered(RouteAll(NO_TABS, ms), ms)
  {
    if ms != [] {
      var init, m := ms[..|ms| - 1], ms[|ms| - 1];
      assert ms == init + [m];
      RoutingIsAFilter(init);
      AppearancesAreDistinct(init);
      var t := RouteAll(NO_TABS, init);
      if m.sender == LEAD {
        RouteLeadFiltered(t, init, m);
      } else if m.sender in Appearances(init) {
        RouteKnownFiltered(t, init, m);
      } else if |Appearances(init)| < MAX_SUB_AGENT_TABS {
        RouteNewWithRoom(t, init, m);
      } else {
        RouteNewWithoutRoom(t, init, m);
      }
    }
  }

  class ConversationTabManager {
    var leadAgentMessages: seq<Message>
    var subAgentOrder: seq<string>
    var subAgentMessages: map<string, seq<Message>>

    ghost function Contents(): Tabs
      reads this
    {
      Tabs(leadAgentMessages, subAgentOrder, subAgentMessages)
    }

    ghost predicate Valid()
      reads this
    {
      WellFormed(Contents())
    }

    constructor ()
      ensures Valid() && Contents() == NO_TABS
    {
      leadAgentMessages := [];
      subAgentOrder := [];
      subAgentMessages := map[];
    }

    method AddLeadAgentMessage(message: Message)
      requires Valid()
      modifies this
      ensures Valid()
      ensures Contents() == old(Contents()).(lead := old(leadAgentMessages) + [message])
    {
      leadAgentMessages := leadAgentMessages + [message];
    }

    method AddSubAgent(agentId: string)
      requires Valid()
      modifies this
      ensures Valid()
      ensures Contents() == WithSubAgent(old(Contents()), agentId)
    {
      if agentId in subAgentOrder { return; }
      if |subAgentOrder| >= MAX_SUB_AGENT_TABS { return; }
      subAgentOrder := subAgentOrder + [agentId];
      subAgentMessages := subAgentMessages[agentId := []];
    }

    method AddSubAgentMessage(agentId: string, message: Message)
      requires Valid()
      modifies this
      ensures Valid()
      ensures Contents() == WithSubAgentMessage(old(Contents()), agentId, message)
    {
      if agentId in subAgentMessages {
        subAgentMessages := subAgentMessages[agentId := subAgentMessages[agentId] + [message]];
      }
    }

    /** `routeTextMessage` of the poll loop. */
    method RouteTextMessage(agentId: string, content: string, timestampMs: int)
      requires Valid()
      modifies this
      ensures Valid()
      ensures Contents() == Route(old(Contents()), Message(agentId, content, timestampMs))
    {
      var message := Message(agentId, content, timestampMs);
      if agentId == LEAD {
        AddLeadAgentMessage(message);
      } else {
        AddSubAgent(agentId);
        AddSubAgentMessage(agentId, message);
      }
    }
  }
}
