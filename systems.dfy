/**
 * The registry of agents: agents by name, the undirected connection graph
 * kept as name sets inside the agents, and routing of messages between
 * connected agents.
 *
 * The graph operations are specified on snapshots of type `ConnectionGraph`
 * (each registered name with its connection set); the registry's methods are
 * proved to act on the snapshot as those specification functions say, and
 * the lemmas here prove what the functions guarantee.
 */
module AgentSystems {
  import opened Common
  import opened Agents

  /** Each registered agent's name with the set of names it is connected to. */
  type ConnectionGraph = map<string, set<string>>

  /** Every connection between two registered agents goes both ways. */
  ghost predicate Symmetric(g: ConnectionGraph)
  {
    forall a, b :: a in g && b in g[a] && b in g ==> a in g[b]
  }

  /** No connection names an unregistered agent. */
  ghost predicate Closed(g: ConnectionGraph)
  {
    forall a, b :: a in g && b in g[a] ==> b in g
  }

  /** `a` connects to `b`, then `b` connects to `a`. */
  ghost function Connected(g: ConnectionGraph, a: string, b: string): (g': ConnectionGraph)
    requires a in g && b in g
    ensures g'.Keys == g.Keys
    ensures b in g'[a] && a in g'[b]
    ensures forall k :: k in g ==> g[k] <= g'[k]
    ensures forall k, x :: k in g && x in g'[k] && x !in g[k] ==> (k == a && x == b) || (k == b && x == a)
  {
    var g1 := g[a := g[a] + {b}];
    g1[b := g1[b] + {a}]
  }

  /** Each registered endpoint drops the other; an unregistered one is skipped. */
  ghost function Disconnected(g: ConnectionGraph, a: string, b: string): (g': ConnectionGraph)
    ensures g'.Keys == g.Keys
    ensures a in g ==> b !in g'[a]
    ensures b in g ==> a !in g'[b]
    ensures forall k :: k in g ==> g'[k] <= g[k]
    ensures forall k, x :: k in g && x in g[k] && x !in g'[k] ==> (k == a && x == b) || (k == b && x == a)
  {
    var g1 := if a in g then g[a := g[a] - {b}] else g;
    if b in g1 then g1[b := g1[b] - {a}] else g1
  }

  /** `n` is unregistered and every other agent forgets it. */
  ghost function Removed(g: ConnectionGraph, n: string): (g': ConnectionGraph)
    ensures g'.Keys == g.Keys - {n}
    ensures forall k :: k in g' ==> n !in g'[k]
    ensures forall k, x :: k in g' ==> (x in g'[k] <==> x in g[k] && x != n)
  {
    map k | k in g && k != n :: g[k] - {n}
  }

  /** Connecting two registered agents keeps the graph symmetric and closed. */
  lemma ConnectedKeepsConsistent(g: ConnectionGraph, a: string, b: string)
    requires a in g && b in g
    ensures Symmetric(g) ==> Symmetric(Connected(g, a, b))
    ensures Closed(g) ==> Closed(Connected(g, a, b))
  {
  }

  /** Disconnecting keeps the graph symmetric and closed. */
  lemma DisconnectedKeepsConsistent(g: ConnectionGraph, a: string, b: string)
    ensures Symmetric(g) ==> Symmetric(Disconnected(g, a, b))
    ensures Closed(g) ==> Closed(Disconnected(g, a, b))
  {
  }

  /** Disconnecting twice is the same as disconnecting once. */
  lemma DisconnectedIdempotent(g: ConnectionGraph, a: string, b: string)
    ensures Disconnected(Disconnected(g, a, b), a, b) == Disconnected(g, a, b)
  {
    var g1 := Disconnected(g, a, b);
    var g2 := Disconnected(g1, a, b);
    forall k | k in g1
      ensures g2[k] == g1[k]
    {
      if k == a || k == b {
        assert g2[k] == g1[k] - {if k == a then b else a} - {if k == b then a else b};
      }
    }
  }

  /** Removing an agent together with the sweep keeps the graph symmetric and closed. */
  lemma RemovedKeepsConsistent(g: ConnectionGraph, n: string)
    ensures Symmetric(g) ==> Symmetric(Removed(g, n))
    ensures Closed(g) ==> Closed(Removed(g, n))
  {
  }

  /** Registering a newly made agent, which has no connections, keeps the graph consistent. */
  lemma AddedKeepsConsistent(g: ConnectionGraph, n: string)
    requires n !in g
    ensures Symmetric(g) && Closed(g) ==> Symmetric(g[n := {}]) && Closed(g[n := {}])
  {
  }

  /** The recipients of a list of messages, in order. */
  function Recipients(msgs: seq<Message>): (r: seq<string>)
    ensures |r| == |msgs|
    ensures forall i :: 0 <= i < |msgs| ==> r[i] == msgs[i].to
  {
    if msgs == [] then [] else [msgs[0].to] + Recipients(msgs[1..])
  }

  /** A sequence without duplicates has as many elements as the set of its elements. */
  lemma {:induction false} DistinctCount<T>(s: seq<T>)
    requires NoDuplicates(s)
    ensures |set x | x in s| == |s|
  {
    if s != [] {
      DistinctCount(s[1..]);
      assert (set x | x in s) == {s[0]} + (set x | x in s[1..]);
      assert s[0] !in s[1..] by {
        forall j | 0 <= j < |s[1..]| ensures s[1..][j] != s[0] {
          assert s[1..][j] == s[j + 1];
        }
      }
    }
  }

  class AgentSystem {
    /** The registered agents, by name. */
    var agents: map<string, Agent>
    /** Every message handed to a recipient, in delivery order. */
    ghost var delivered: seq<Message>

    /** Every agent is registered under its own name. */
    ghost predicate Valid()
      reads this
    {
      forall n :: n in agents ==> agents[n].name == n
    }

    /** The current connection graph of the registered agents. */
    ghost function Graph(): ConnectionGraph
      reads this, agents.Values
    {
      map n | n in agents :: agents[n].connections
    }

    /** The registry's graph is consistent: symmetric and without dangling names. */
    ghost predicate Consistent()
      reads this, agents.Values
    {
      Symmetric(Graph()) && Closed(Graph())
    }

    /** An empty registry. */
    constructor ()
      ensures agents == map[] && delivered == []
      ensures Valid() && Consistent()
    {
      agents := map[];
      delivered := [];
    }

    /** Registers `agent` under its name unless that name is taken. */
    method AddAgent(agent: Agent) returns (r: Result<()>)
      requires Valid()
      modifies this`agents
      ensures Valid()
      ensures agent.name in old(agents) ==> r == Err(AgentExists(agent.name)) && agents == old(agents)
      ensures agent.name !in old(agents) ==>
        && r == Ok(())
        && agents == old(agents)[agent.name := agent]
        && Graph() == old(Graph())[agent.name := agent.connections]
      ensures old(Consistent()) && agent.connections == {} ==> Consistent()
    {
      if agent.name in agents {
        return Err(AgentExists(agent.name));
      }
      ghost var g := Graph();
      agents := agents[agent.name := agent];
      assert Graph() == g[agent.name := agent.connections];
      if agent.connections == {} {
        AddedKeepsConsistent(g, agent.name);
      }
      r := Ok(());
    }

    /** The agent registered as `name`, if any. */
    function GetAgent(name: string): (r: Option<Agent>)
      requires Valid()
      reads this
      ensures r.Some? <==> name in agents
      ensures r.Some? ==> r.value == agents[name] && r.value.name == name
    {
      if name in agents then Some(agents[name]) else None
    }

    /** Every agent other than `name` forgets its connection to `name`. */
    method RemoveConnections(name: string)
      requires Valid()
      modifies agents.Values`connections
      ensures forall k :: k in agents && k != name ==> agents[k].connections == old(agents[k].connections) - {name}
      ensures name in agents ==> agents[name].connections == old(agents[name].connections)
    {
      var todo := agents.Keys;
      while todo != {}
        invariant todo <= agents.Keys
        invariant forall k :: k in agents && k !in todo && k != name ==>
          agents[k].connections == old(agents[k].connections) - {name}
        invariant forall k :: k in agents && (k in todo || k == name) ==>
          agents[k].connections == old(agents[k].connections)
        decreases todo
      {
        var k :| k in todo;
        var agent := agents[k];
        if agent.name != name {
          agent.DisconnectFrom(name);
        }
        todo := todo - {k};
      }
    }

    /**
     * Unregisters `name` after sweeping every back-reference to it out of
     * the other agents, and hands the removed agent back.
     */
    method RemoveAgent(name: string) returns (r: Result<Agent>)
      requires Valid()
      modifies this`agents, agents.Values`connections
      ensures Valid()
      ensures name !in old(agents) ==>
        && r == Err(AgentNotFound(name))
        && agents == old(agents)
        && Graph() == old(Graph())
      ensures name in old(agents) ==>
        && r == Ok(old(agents[name]))
        && r.value.connections == old(agents[name].connections)
        && agents == old(agents) - {name}
        && Graph() == Removed(old(Graph()), name)
      ensures GetAgent(name).None?
      ensures name in old(agents) ==> forall k :: k in agents ==> !agents[k].IsConnectedTo(name)
      ensures old(Consistent()) ==> Consistent()
    {
      if name !in agents {
        return Err(AgentNotFound(name));
      }
      ghost var g := Graph();
      RemoveConnections(name);
      var removed := agents[name];
      agents := agents - {name};
      assert Graph() == Removed(g, name);
      RemovedKeepsConsistent(g, name);
      r := Ok(removed);
    }

    /** Connects `a` and `b` both ways, provided both are registered. */
    method ConnectAgents(a: string, b: string) returns (r: Result<()>)
      requires Valid()
      modifies agents.Values`connections
      ensures a !in agents ==> r == Err(AgentNotFound(a)) && Graph() == old(Graph())
      ensures a in agents && b !in agents ==> r == Err(AgentNotFound(b)) && Graph() == old(Graph())
      ensures a in agents && b in agents ==>
        && r == Ok(())
        && Graph() == Connected(old(Graph()), a, b)
        && agents[a].IsConnectedTo(b) && agents[b].IsConnectedTo(a)
        && agents[a].connections == old(agents[a].connections) + {b}
        && agents[b].connections == old(agents[b].connections) + {a}
      ensures forall k :: k in agents && k != a && k != b ==> agents[k].connections == old(agents[k].connections)
      ensures old(Consistent()) ==> Consistent()
    {
      if a !in agents {
        return Err(AgentNotFound(a));
      }
      if b !in agents {
        return Err(AgentNotFound(b));
      }
      ghost var g := Graph();
      agents[a].ConnectTo(b);
      agents[b].ConnectTo(a);
      assert Graph() == Connected(g, a, b);
      ConnectedKeepsConsistent(g, a, b);
      r := Ok(());
    }

    /** Disconnects `a` and `b` both ways; unregistered names are skipped and it never fails. */
    method DisconnectAgents(a: string, b: string) returns (r: Result<()>)
      requires Valid()
      modifies agents.Values`connections
      ensures r == Ok(())
      ensures Graph() == Disconnected(old(Graph()), a, b)
      ensures a in agents ==> !agents[a].IsConnectedTo(b)
      ensures b in agents ==> !agents[b].IsConnectedTo(a)
      ensures forall k :: k in agents && k != a && k != b ==> agents[k].connections == old(agents[k].connections)
      ensures old(Consistent()) ==> Consistent()
    {
      ghost var g := Graph();
      if a in agents {
        agents[a].DisconnectFrom(b);
      }
      if b in agents {
        agents[b].DisconnectFrom(a);
      }
      assert Graph() == Disconnected(g, a, b);
      DisconnectedKeepsConsistent(g, a, b);
      r := Ok(());
    }

    /**
     * Sends `content` from `from` to `to`.  Fails, in this order of checks,
     * when the sender is unregistered, when the recipient is unregistered,
     * or when the sender is not connected to the recipient.
     */
    method SendMessage(from: string, to: string, content: string) returns (r: Result<Message>)
      modifies this`delivered
      ensures from !in agents ==> r == Err(SenderNotFound(from))
      ensures from in agents && to !in agents ==> r == Err(RecipientNotFound(to))
      ensures from in agents && to in agents && !agents[from].IsConnectedTo(to) ==> r == Err(NotConnected(from, to))
      ensures r.Ok? <==> from in agents && to in agents && agents[from].IsConnectedTo(to)
      ensures r.Ok? ==> r.value == Message(from, to, content) && delivered == old(delivered) + [r.value]
      ensures r.Err? ==> delivered == old(delivered)
    {
      if from !in agents {
        return Err(SenderNotFound(from));
      }
      if to !in agents {
        return Err(RecipientNotFound(to));
      }
      if !agents[from].IsConnectedTo(to) {
        return Err(NotConnected(from, to));
      }
      var message := Message(from, to, content);
      delivered := delivered + [message];
      r := Ok(message);
    }

    /**
     * Sends `content` from `from` to each of its connections that names a
     * registered agent.  Fails only when the sender is unregistered.
     */
    method SendBroadcast(from: string, content: string) returns (r: Result<seq<Message>>)
      modifies this`delivered
      ensures r.Err? <==> from !in agents
      ensures r.Err? ==> r.error == SenderNotFound(from) && delivered == old(delivered)
      ensures r.Ok? ==>
        var msgs := r.value;
        && (forall i :: 0 <= i < |msgs| ==> msgs[i].from == from && msgs[i].content == content)
        && (forall x :: x in Recipients(msgs) <==> agents[from].IsConnectedTo(x) && x in agents)
        && NoDuplicates(Recipients(msgs))
        && |msgs| == |agents[from].connections * agents.Keys|
        && delivered == old(delivered) + msgs
    {
      if from !in agents {
        return Err(SenderNotFound(from));
      }
      var connections := agents[from].GetConnections();
      var msgs: seq<Message> := [];
      for i := 0 to |connections|
        invariant forall j :: 0 <= j < |msgs| ==> msgs[j].from == from && msgs[j].content == content
        invariant forall x :: x in Recipients(msgs) <==> x in connections[..i] && x in agents
        invariant NoDuplicates(Recipients(msgs))
        invariant delivered == old(delivered) + msgs
      {
        var name := connections[i];
        assert connections[..i + 1] == connections[..i] + [name];
        if name in agents {
          assert name !in connections[..i];
          var message := Message(from, name, content);
          assert Recipients(msgs + [message]) == Recipients(msgs) + [name];
          delivered := delivered + [message];
          msgs := msgs + [message];
        }
      }
      assert connections[..|connections|] == connections;
      DistinctCount(Recipients(msgs));
      assert (set x | x in Recipients(msgs)) == agents[from].connections * agents.Keys;
      r := Ok(msgs);
    }

    /** The registered agents, each exactly once, in no particular order. */
    method ListAgents() returns (r: seq<Agent>)
      requires Valid()
      ensures forall a :: a in r <==> a in agents.Values
      ensures NoDuplicates(r) && |r| == |agents|
    {
      var names := CollectSet(agents.Keys);
      var registered := agents;
      r := seq(|names|, i requires 0 <= i < |names| => registered[names[i]]);
      forall a | a in agents.Values
        ensures a in r
      {
        var n :| n in agents && agents[n] == a;
        var i :| 0 <= i < |names| && names[i] == n;
        assert r[i] == a;
      }
    }
  }
}
