# Multi-agent registry, connection graph and sessions — a Dafny model

This project models the in-memory core of a small multi-agent system:

- the **agent registry** (`AgentSystem`), a map from agent name to agent;
- the undirected **connection graph** between agents, kept as a set of peer
  names inside each agent;
- routing of a message, or a broadcast, from an agent to its connected peers;
- each agent's **sessions**, keyed by session id. A session holds a log of
  message/response entries, a FIFO queue of pending inbound messages (the
  "message stack", which is first in, first out despite its name) and the
  handle of the background consumer that drains the queue;
- one pass of that consumer task, with the text-generation call as an input.

The source mutates all three kinds of state in place, so the model has classes:

- `Sessions.Session` has fields `entries`, `queue` and `handle`, and a constant `id`.
- `Agents.Agent` has a constant `name` and `role`, a `connections` set and a
  `sessions` map of `Session` objects.
- `AgentSystems.AgentSystem` has an `agents` map of `Agent` objects.
- Message, log entry, task handle and error are datatypes (`common.dfy`,
  `sessions.dfy`).

Each mutating method states the complete new state in its `ensures`. Map keys
agree with the stored object's name or id (`Valid()`). That makes distinct keys
hold distinct objects, so a method that touches one agent or session provably
leaves the others alone.

The connection graph is also specified on values. `AgentSystem.Graph()` takes a
snapshot of type `ConnectionGraph`: each registered name with its connection
set. Three specification functions say what the graph operations do to a
snapshot: `Connected`, `Disconnected` and `Removed`. The registry methods are
proved to act on the snapshot exactly as those functions say. Lemmas then
prove that connecting, disconnecting and removing keep the graph consistent:
symmetric, and with no dangling names. Registering keeps it consistent only
for an agent that has no connections yet. The registry does not check this.
For example, an agent handed back by `RemoveAgent` keeps its connections.
Registering it again gives a graph in which it names peers that no longer
name it.

The queue is specified by `Dequeue` and by `Replay`, which runs a trace of
pushes and pops. The FIFO law is proved by induction over the trace:
everything popped, followed by what is still queued, equals what was queued
before followed by everything pushed, in order.

Errors are the distinct error texts of the source, one `Common.Error` variant
each. For example, `SenderNotFound` and `RecipientNotFound` are distinct
variants, because the source words them differently. The enums of
`backend/src/errors.rs` are not used by the modelled code, so the model does
not use them either.

Accessors that only read a field become plain functions: `Session.EntryCount`,
`Session.GetEntries`, `Session.MessageStackSize` and `Agent.IsConnectedTo`. The
mutators' contracts use them ("entry_count grows by one", "is_connected_to
holds afterwards"). `scenarios.dfy` holds client code that relies only on the
contracts. It replays the situations of the unit tests in
`backend/src/agent_system.rs`, `backend/src/agent.rs` and
`backend/src/session.rs`, and builds every registry through `AddAgent` and
`ConnectAgents`. A few more situations cover queue order, the session
lifecycle and the consumer step. `AgentSystem::default`
is the same as `AgentSystem::new` (the constructor).

Some behaviour that a reader might expect is absent from the code, and the
model follows the code:

- `AgentSystem` has no system-wide set of session ids and no active session.
- Its `send_message` and `send_broadcast` do not put anything into a session
  queue.
- Its `disconnect_agents` never fails.
- `backend/src/main.rs` calls `create_session`, `get_active_session` and
  `wait_for_session_tasks` on the registry (lines 39, 40 and 79), but
  `backend/src/agent_system.rs` defines none of them. Only the per-agent
  session operations are modelled.

## Model

| member | source | states |
|---|---|---|
| `AgentSystems.AgentSystem.constructor` | backend/src/agent_system.rs:12-16 | a new registry has no agents; its graph is trivially consistent |
| `AgentSystems.AgentSystem.AddAgent` | backend/src/agent_system.rs:19-25 | a taken name fails with `AgentExists` and leaves the map unchanged; otherwise the agent is inserted under its own name, nothing else changes, and a new agent with no connections keeps the graph consistent |
| `AgentSystems.AgentSystem.RemoveAgent` | backend/src/agent_system.rs:28-39 | an unknown name fails with `AgentNotFound` and changes nothing; otherwise the removed agent is returned with its connections intact, the name is unregistered, `GetAgent` finds nothing, no remaining agent is connected to it, and the graph becomes `Removed(old graph, name)` and stays consistent |
| `AgentSystems.AgentSystem.RemoveConnections` | backend/src/agent_system.rs:42-49 | after the sweep every agent other than `name` has exactly its old connections minus `name`; the agent called `name` itself is untouched |
| `AgentSystems.AgentSystem.GetAgent` | backend/src/agent_system.rs:52-54 | an agent is found exactly when the name is registered, and the agent found is the registered object itself, carrying that name |
| `AgentSystems.AgentSystem.ConnectAgents` | backend/src/agent_system.rs:57-73 | fails with `AgentNotFound(a)`, then `AgentNotFound(b)`, without mutation when an endpoint is unregistered; otherwise each endpoint's set gains exactly the other endpoint, the graph becomes `Connected(old graph, a, b)`, other agents are unchanged and consistency is kept |
| `AgentSystems.AgentSystem.DisconnectAgents` | backend/src/agent_system.rs:76-88 | always succeeds, skips unregistered names, leaves neither registered endpoint connected to the other, changes no other agent, and keeps consistency |
| `AgentSystems.AgentSystem.SendMessage` | backend/src/agent_system.rs:91-112 | fails with `SenderNotFound`, `RecipientNotFound` or `NotConnected`, checked in that order; succeeds exactly when both are registered and the sender is connected to the recipient, returning the message with the given from, to and content and delivering it once |
| `AgentSystems.AgentSystem.SendBroadcast` | backend/src/agent_system.rs:115-134 | fails exactly when the sender is unregistered; otherwise returns one message per sender connection that names a registered agent, with no recipient twice and none other, each from the sender with the given content, delivered in the order returned (so none when there are no connections) |
| `AgentSystems.AgentSystem.ListAgents` | backend/src/agent_system.rs:137-139 | returns every registered agent exactly once and nothing else |
| `AgentSystems.Connected` | backend/src/agent_system.rs:65-70 | connecting adds `b` to `a`'s set and `a` to `b`'s set, removes nothing and adds nothing else |
| `AgentSystems.Disconnected` | backend/src/agent_system.rs:81-86 | disconnecting removes `b` from a registered `a` and `a` from a registered `b`, and nothing else |
| `AgentSystems.Removed` | backend/src/agent_system.rs:33-37 | removal unregisters `n`, and every remaining connection set keeps exactly its members other than `n` |
| `AgentSystems.ConnectedKeepsConsistent` | backend/src/agent_system.rs:57-73 | connecting two registered agents keeps the graph symmetric and free of dangling names |
| `AgentSystems.DisconnectedKeepsConsistent` | backend/src/agent_system.rs:76-88 | disconnecting keeps the graph symmetric and free of dangling names |
| `AgentSystems.DisconnectedIdempotent` | backend/src/agent_system.rs:76-88 | disconnecting the same pair twice has the same effect as once |
| `AgentSystems.RemovedKeepsConsistent` | backend/src/agent_system.rs:28-49 | removing an agent with the sweep keeps the graph symmetric and free of dangling names |
| `AgentSystems.AddedKeepsConsistent` | backend/src/agent_system.rs:19-25 | registering a new agent with no connections keeps a consistent graph consistent |
| `AgentSystems.DistinctCount` | backend/src/agent_system.rs:121-131 | a list of distinct recipients has as many elements as the set of them, so a broadcast sends exactly as many messages as there are registered connections |
| `Agents.Agent.constructor` | backend/src/agent.rs:18-25 | a new agent keeps its name and role and has no connections and no sessions |
| `Agents.Agent.IsConnectedToAgreesWithUpdates` | backend/src/agent.rs:97-100 | the connection query holds exactly when connecting again would change nothing, and exactly when disconnecting would change the set |
| `Agents.Agent.ConnectTo` | backend/src/agent.rs:85-88 | afterwards `IsConnectedTo(other)` holds and every other member of the set is kept |
| `Agents.Agent.DisconnectFrom` | backend/src/agent.rs:91-94 | afterwards `IsConnectedTo(other)` is false, and removing an absent name changes nothing |
| `Agents.Agent.GetConnections` | backend/src/agent.rs:103-106 | returns exactly the connected names, each once |
| `Agents.Agent.SendMessage` | backend/src/agent.rs:109-119 | an unknown session fails with `SessionNotFound`; otherwise the message is appended at the back of that session's queue and every other session's queue is unchanged |
| `Agents.Agent.CreateSession` | backend/src/agent.rs:122-129 | an existing id fails with `SessionExists` and changes nothing; otherwise a fresh, empty session with that id is added and the other sessions are untouched |
| `Agents.Agent.GetSession` | backend/src/agent.rs:132-135 | a session is returned exactly when the id is known, and it is a fresh copy with the same id, log and queue and no task handle |
| `Agents.Agent.ListSessions` | backend/src/agent.rs:138-141 | returns every session id exactly once |
| `Agents.Agent.RemoveSession` | backend/src/agent.rs:144-149 | an unknown id fails with `SessionNotFound`; otherwise the removed session is returned and the id is no longer listed |
| `Agents.Agent.SetSessionJoinHandle` | backend/src/agent.rs:152-164 | an unknown id fails with `SessionNotFound`; otherwise that session holds the handle and no other session's handle changes |
| `Agents.Agent.TakeNextMessage` | backend/src/agent.rs:36-44 | the loop stops exactly when the session is gone; otherwise the oldest queued message is taken off the queue, or the step is idle when the queue is empty |
| `Agents.Agent.RecordResponse` | backend/src/agent.rs:59-75 | a generated response is appended with its message only if the session still exists; a failed generation records nothing, and the message is not queued again |
| `Agents.Agent.ConsumerStep` | backend/src/agent.rs:34-80 | one uninterrupted pass stops exactly when the session is gone; otherwise it pops the oldest message and logs it with its response only on a successful generation, and leaves other sessions alone |
| `Common.CollectSet` | backend/src/agent.rs:105 | collecting a hash set yields each element exactly once, in some order |
| `Sessions.SessionEntry.New` | backend/src/session.rs:15-21 | a new entry holds the message and no response |
| `Sessions.SessionEntry.WithResponse` | backend/src/session.rs:24-30 | the entry holds the message and the given response |
| `Sessions.SessionEntry.SetResponse` | backend/src/session.rs:33-35 | the response is replaced and the message kept |
| `Sessions.Session.constructor` | backend/src/session.rs:62-70 | a new session has the given id, no entries, an empty queue and no handle |
| `Sessions.Session.GetEntries` | backend/src/session.rs:92-94 | the log itself, oldest entry first, so what the mutators append is what a reader sees |
| `Sessions.Session.EntryCount` | backend/src/session.rs:97-99 | the entry count is the length of the log a reader gets back |
| `Sessions.Session.AddMessage` | backend/src/session.rs:73-76 | appends exactly one entry without a response; the entry count grows by one |
| `Sessions.Session.AddMessageWithResponse` | backend/src/session.rs:79-82 | appends exactly one entry holding the message and the response |
| `Sessions.Session.SetLastResponse` | backend/src/session.rs:85-89 | only the last entry's response changes, and an empty log is left empty |
| `Sessions.Session.Clear` | backend/src/session.rs:107-109 | the log becomes empty while the queue and handle stay as they were |
| `Sessions.Session.PushMessageToStack` | backend/src/session.rs:112-114 | the message is appended at the back of the queue |
| `Sessions.Session.PopMessageFromStack` | backend/src/session.rs:117-119 | the front message is returned and removed, or none when the queue is empty |
| `Sessions.Session.MessageStackSize` | backend/src/session.rs:127-129 | the size is zero exactly when a pop would find nothing, and otherwise one more than what a pop leaves behind |
| `Sessions.Session.IsMessageStackEmpty` | backend/src/session.rs:122-124 | the queue is reported empty exactly when its size is zero |
| `Sessions.Session.SetJoinHandle` | backend/src/session.rs:132-134 | the session holds the given handle |
| `Sessions.Session.TakeJoinHandle` | backend/src/session.rs:137-139 | the stored handle is returned and none is left behind |
| `Sessions.Session.Clone` | backend/src/session.rs:48-57 | a copy has the same id, log and queue and never a handle |
| `Sessions.Dequeue` | backend/src/session.rs:117-119 | nothing is taken exactly when the queue is empty; otherwise the message taken followed by the rest is the old queue |
| `Sessions.StepPreservesOrder` | backend/src/session.rs:112-119 | one push or pop hands out messages only from the front, so hand-outs followed by the queue equal the old queue followed by the push |
| `Sessions.FifoLaw` | backend/src/session.rs:112-119 | over any run of pushes and pops, the messages popped followed by those still queued equal the initial queue followed by everything pushed, in order |
| `Sessions.PoppedInArrivalOrder` | backend/src/session.rs:112-119 | messages are popped in arrival order: what has been popped is a prefix of everything ever queued |

## Left out

- The spawning of the consumer task (`start_session`, backend/src/agent.rs:27-33)
  and the consumer's infinite `loop` are left out. So are its 100 ms sleep and its
  locking. Only one pass is modelled (`ConsumerStep`), plus its two critical
  sections as separate methods. Other operations may run between those two
  methods, which is how a session removed mid-processing loses its message.
- The text-generation client is an input to the step (`Generation`). Its HTTP
  transport, its request counter and its health check are left out.
- Task handles are opaque tokens. Awaiting a task and task panics are left out.
- Timestamps (`SessionEntry.timestamp`, `Session.created_at`) are clock reads
  and are left out, together with the `created_at` accessor.
- `on_message` is called by routing but is not defined in the code. Its effect
  is modelled only as the ghost log `AgentSystem.delivered`: one record per
  delivered message, in order. No queue is filled.
- A cloned `Agent` shares its connection set and session map with the
  original. This aliasing is left out: each registered agent is its own
  object.
- Logging is left out. So is the second, unreachable "not found" error path of
  `remove_agent` (backend/src/agent_system.rs:36-38), because the name was
  checked just before.
- The registry-level session operations that `backend/src/main.rs` calls
  (`create_session`, `get_active_session`, `wait_for_session_tasks`) are left
  out, because `backend/src/agent_system.rs` does not define them.
  `backend/src/main.rs` itself is not part of this model.
- The error enums of backend/src/errors.rs and their display texts are not
  part of this model.
