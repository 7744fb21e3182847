/**
 * Client code that replays the situations of the unit tests in
 * agent_system.rs, agent.rs and session.rs, and a few more (queue order,
 * session lifecycle, the consumer step), using only the contracts of the
 * operations: each assertion below is a consequence of those contracts.
 */
module Scenarios {
  import opened Common
  import opened Sessions
  import opened Agents
  import opened AgentSystems

  /** A duplicate name is refused; a removed agent can no longer be looked up. */
  method AddAndRemove() {
    var system := new AgentSystem();
    var first := new Agent("Agent1", "Role1");
    var second := new Agent("Agent1", "Role2");
    var r := system.AddAgent(first);
    assert r.Ok?;
    r := system.AddAgent(second);
    assert r == Err(AgentExists("Agent1"));
    var removed := system.RemoveAgent("Agent1");
    assert removed == Ok(first);
    assert system.GetAgent("Agent1").None?;
    removed := system.RemoveAgent("Agent1");
    assert removed == Err(AgentNotFound("Agent1"));
  }

  /** Sending needs a connection; once connected the message carries the arguments. */
  method MessageRequiresConnection() {
    var system := new AgentSystem();
    var a1 := new Agent("Agent1", "Role1");
    var a2 := new Agent("Agent2", "Role2");
    var r := system.AddAgent(a1);
    r := system.AddAgent(a2);
    var sent := system.SendMessage("Agent1", "Agent2", "Hello");
    assert sent == Err(NotConnected("Agent1", "Agent2"));
    sent := system.SendMessage("Ghost", "Agent2", "Hello");
    assert sent == Err(SenderNotFound("Ghost"));
    r := system.ConnectAgents("Agent1", "Agent2");
    assert r.Ok?;
    sent := system.SendMessage("Agent1", "Agent2", "Hello");
    assert sent == Ok(Message("Agent1", "Agent2", "Hello"));
    sent := system.SendMessage("Agent2", "Agent1", "Hi");
    assert sent.Ok?;
  }

  /** Registers a new agent, with no connections, under a name not yet taken. */
  method Register(system: AgentSystem, name: string, role: string) returns (agent: Agent)
    requires system.Valid() && name !in system.agents
    modifies system`agents
    ensures fresh(agent) && agent.connections == {}
    ensures system.Valid() && system.agents == old(system.agents)[name := agent]
  {
    agent := new Agent(name, role);
    var r := system.AddAgent(agent);
  }

  /** Registers four new, unconnected agents in a new registry. */
  method FourAgents() returns (system: AgentSystem)
    ensures fresh(system) && system.Valid()
    ensures system.agents.Keys == {"Broadcaster", "Agent1", "Agent2", "Agent3"}
    ensures forall k :: k in system.agents ==> fresh(system.agents[k]) && system.agents[k].connections == {}
  {
    system := new AgentSystem();
    var broadcaster := Register(system, "Broadcaster", "Role1");
    var a1 := Register(system, "Agent1", "Role2");
    var a2 := Register(system, "Agent2", "Role3");
    var a3 := Register(system, "Agent3", "Role4");
    assert system.agents == map["Broadcaster" := broadcaster, "Agent1" := a1, "Agent2" := a2, "Agent3" := a3];
  }

  /** Connects the broadcaster to two of the three others, through the registry's operations. */
  method BroadcastRegistry() returns (system: AgentSystem)
    ensures fresh(system) && system.Valid()
    ensures system.agents.Keys == {"Broadcaster", "Agent1", "Agent2", "Agent3"}
    ensures system.agents["Broadcaster"].connections == {"Agent1", "Agent2"}
  {
    system := FourAgents();
    var r := system.ConnectAgents("Broadcaster", "Agent1");
    assert r.Ok?;
    r := system.ConnectAgents("Broadcaster", "Agent2");
    assert r.Ok?;
  }

  /**
   * A broadcaster connected to two of three other agents reaches exactly
   * those two, each message carrying the sender and the content.
   */
  method Broadcast() {
    var system := BroadcastRegistry();
    var sent := system.SendBroadcast("Broadcaster", "Hello everyone!");
    assert sent.Ok?;
    var msgs := sent.value;
    assert system.agents["Broadcaster"].connections * system.agents.Keys == {"Agent1", "Agent2"};
    assert |msgs| == 2;
    assert "Agent1" in Recipients(msgs) && "Agent2" in Recipients(msgs);
    assert "Agent3" !in Recipients(msgs);
    assert forall i :: 0 <= i < |msgs| ==> msgs[i].from == "Broadcaster" && msgs[i].content == "Hello everyone!";
  }

  /** A lone agent broadcasts to nobody; an unknown sender cannot broadcast. */
  method BroadcastEdgeCases() {
    var system := new AgentSystem();
    var lone := new Agent("LoneAgent", "Role1");
    var r := system.AddAgent(lone);
    var sent := system.SendBroadcast("LoneAgent", "Anyone there?");
    assert sent.Ok? && |sent.value| == 0;
    sent := system.SendBroadcast("NonExistent", "Hello");
    assert sent == Err(SenderNotFound("NonExistent"));
  }

  /** Registers three new, unconnected agents in a new registry. */
  method ThreeAgents() returns (system: AgentSystem)
    ensures fresh(system) && system.Valid()
    ensures system.agents.Keys == {"Agent1", "Agent2", "Agent3"}
    ensures forall k :: k in system.agents ==> fresh(system.agents[k])
  {
    system := new AgentSystem();
    var a1 := Register(system, "Agent1", "Role1");
    var a2 := Register(system, "Agent2", "Role2");
    var a3 := Register(system, "Agent3", "Role3");
    assert system.agents == map["Agent1" := a1, "Agent2" := a2, "Agent3" := a3];
  }

  /** Three new agents, the first connected to the other two, through the registry's operations. */
  method ConnectedTrio() returns (system: AgentSystem)
    ensures fresh(system) && system.Valid()
    ensures system.agents.Keys == {"Agent1", "Agent2", "Agent3"}
    ensures forall k :: k in system.agents ==> fresh(system.agents[k])
    ensures system.agents["Agent2"].IsConnectedTo("Agent1") && system.agents["Agent3"].IsConnectedTo("Agent1")
  {
    system := ThreeAgents();
    var r := system.ConnectAgents("Agent1", "Agent2");
    assert r.Ok?;
    r := system.ConnectAgents("Agent1", "Agent3");
    assert r.Ok?;
  }

  /** Removing an agent sweeps it out of its peers' connection sets. */
  method RemoveCleansConnections() {
    var system := ConnectedTrio();
    var found2, found3 := system.GetAgent("Agent2"), system.GetAgent("Agent3");
    assert found2.Some? && found3.Some?;
    var a2, a3 := found2.value, found3.value;
    assert a2.IsConnectedTo("Agent1") && a3.IsConnectedTo("Agent1");
    var removed := system.RemoveAgent("Agent1");
    assert removed.Ok?;
    found2, found3 := system.GetAgent("Agent2"), system.GetAgent("Agent3");
    assert found2 == Some(a2) && found3 == Some(a3);
    assert !a2.IsConnectedTo("Agent1") && !a3.IsConnectedTo("Agent1");
  }

  /** A new agent keeps its name and role; connecting and disconnecting toggle the query. */
  method AgentConnections() {
    var agent := new Agent("Agent1", "Role1");
    assert agent.name == "Agent1" && agent.role == "Role1";
    agent.ConnectTo("Agent2");
    assert agent.IsConnectedTo("Agent2");
    agent.DisconnectFrom("Agent2");
    assert !agent.IsConnectedTo("Agent2");
  }

  /** A new session is empty; each add grows the log by one; the last response can be set. */
  method SessionEntries(m: Message) {
    var s := new Session("test-session");
    assert s.id == "test-session" && s.EntryCount() == 0;
    s.AddMessageWithResponse(m, "Hi there!");
    assert s.EntryCount() == 1 && s.GetEntries()[0].response == Some("Hi there!");
    var t := new Session("test-session");
    t.AddMessage(m);
    assert t.EntryCount() == 1 && t.GetEntries()[0].response.None?;
    t.SetLastResponse("Response!");
    assert t.GetEntries()[0].response == Some("Response!");
  }

  /** The pending queue hands messages out in arrival order. */
  method QueueOrder(m1: Message, m2: Message) {
    var s := new Session("s1");
    s.PushMessageToStack(m1);
    s.PushMessageToStack(m2);
    assert s.MessageStackSize() == 2 && !s.IsMessageStackEmpty();
    var p := s.PopMessageFromStack();
    assert p == Some(m1);
    p := s.PopMessageFromStack();
    assert p == Some(m2);
    p := s.PopMessageFromStack();
    assert p.None? && s.IsMessageStackEmpty();
  }

  /** Session ids are unique per agent; a removed id can be created again. */
  method SessionLifecycle() {
    var agent := new Agent("Agent1", "Role1");
    var r := agent.CreateSession("s1");
    assert r.Ok?;
    r := agent.CreateSession("s1");
    assert r == Err(SessionExists("s1"));
    var removed := agent.RemoveSession("s1");
    assert removed.Ok? && removed.value.id == "s1";
    r := agent.CreateSession("s1");
    assert r.Ok?;
  }

  /** The consumer records a generated response, drops a failed one, and stops once the session is gone. */
  method Consumer(m1: Message, m2: Message) {
    var agent := new Agent("Agent2", "Role2");
    var r := agent.CreateSession("s1");
    r := agent.SendMessage("s1", m1);
    r := agent.SendMessage("s1", m2);
    var s := agent.sessions["s1"];
    assert s.queue == [m1, m2];
    var p := agent.ConsumerStep("s1", Generated("reply"));
    assert p == Received(m1);
    assert s.entries == [SessionEntry.WithResponse(m1, "reply")];
    p := agent.ConsumerStep("s1", Failed);
    assert p == Received(m2) && |s.entries| == 1;
    p := agent.ConsumerStep("s1", Generated("unused"));
    assert p.Idle?;
    var removed := agent.RemoveSession("s1");
    p := agent.ConsumerStep("s1", Generated("unused"));
    assert p.Stopped?;
  }
}
