/**
 * An agent: a fixed name and role, the set of names of the agents it is
 * connected to, and its sessions keyed by session id.  The body of the
 * background consumer loop is modelled as one poll/record step whose call to
 * the text-generation service is an input.
 */
module Agents {
  import opened Common
  import opened Sessions

  /** What one poll of the consumer loop finds. */
  datatype Poll =
    | Stopped                      // the session is gone: the loop ends
    | Idle                         // nothing queued: the loop sleeps and polls again
    | Received(message: Message)   // the oldest queued message, now taken off the queue

  /** The outcome of the text-generation call made for a received message. */
  datatype Generation = Generated(response: string) | Failed

  class Agent {
    const name: string
    const role: string
    var connections: set<string>
    var sessions: map<string, Session>

    /** Every session is stored under its own id. */
    ghost predicate Valid()
      reads this
    {
      forall k :: k in sessions ==> sessions[k].id == k
    }

    /** A new agent: no connections and no sessions. */
    constructor (name: string, role: string)
      ensures this.name == name && this.role == role
      ensures connections == {} && sessions == map[]
      ensures Valid()
    {
      this.name := name;
      this.role := role;
      connections := {};
      sessions := map[];
    }

    predicate IsConnectedTo(other: string)
      reads this
    {
      other in connections
    }

    /**
     * The connection query agrees with the updates: connected to `other`
     * exactly when connecting to it again would change nothing, and exactly
     * when disconnecting from it would change the set.
     */
    lemma IsConnectedToAgreesWithUpdates(other: string)
      ensures IsConnectedTo(other) <==> connections + {other} == connections
      ensures IsConnectedTo(other) <==> connections - {other} != connections
    {
    }

    /** Adds `other` to the connections; the rest of the set is kept. */
    method ConnectTo(other: string)
      modifies this`connections
      ensures connections == old(connections) + {other}
      ensures IsConnectedTo(other)
    {
      connections := connections + {other};
    }

    /** Removes `other` from the connections (nothing happens if it is absent). */
    method DisconnectFrom(other: string)
      modifies this`connections
      ensures connections == old(connections) - {other}
      ensures !IsConnectedTo(other)
      ensures other !in old(connections) ==> connections == old(connections)
    {
      connections := connections - {other};
    }

    /** The connected names, each exactly once, in no particular order. */
    method GetConnections() returns (r: seq<string>)
      ensures forall x :: x in r <==> IsConnectedTo(x)
      ensures NoDuplicates(r) && |r| == |connections|
    {
      r := CollectSet(connections);
    }

    /** Enqueues `m` at the back of the queue of session `sid`. */
    method SendMessage(sid: string, m: Message) returns (r: Result<()>)
      requires Valid()
      modifies sessions.Values`queue
      ensures sid !in sessions ==> r == Err(SessionNotFound(sid))
      ensures sid in sessions ==> r == Ok(()) && sessions[sid].queue == old(sessions[sid].queue) + [m]
      ensures forall k :: k in sessions && k != sid ==> sessions[k].queue == old(sessions[k].queue)
    {
      if sid !in sessions {
        return Err(SessionNotFound(sid));
      }
      sessions[sid].PushMessageToStack(m);
      r := Ok(());
    }

    /** Adds a fresh, empty session `sid` unless one with that id exists. */
    method CreateSession(sid: string) returns (r: Result<()>)
      requires Valid()
      modifies this`sessions
      ensures Valid()
      ensures sid in old(sessions) ==> r == Err(SessionExists(sid)) && sessions == old(sessions)
      ensures sid !in old(sessions) ==>
        && r == Ok(())
        && sid in sessions && fresh(sessions[sid])
        && sessions == old(sessions)[sid := sessions[sid]]
        && sessions[sid].entries == [] && sessions[sid].queue == [] && sessions[sid].handle.None?
    {
      if sid in sessions {
        return Err(SessionExists(sid));
      }
      var s := new Session(sid);
      sessions := sessions[sid := s];
      r := Ok(());
    }

    /** A snapshot copy of session `sid`, without its task handle. */
    method GetSession(sid: string) returns (r: Option<Session>)
      requires Valid()
      ensures r.Some? <==> sid in sessions
      ensures r.Some? ==>
        && fresh(r.value)
        && r.value.id == sid
        && r.value.entries == sessions[sid].entries
        && r.value.queue == sessions[sid].queue
        && r.value.handle.None?
    {
      if sid !in sessions {
        return None;
      }
      var c := sessions[sid].Clone();
      r := Some(c);
    }

    /** The ids of all sessions, each exactly once, in no particular order. */
    method ListSessions() returns (r: seq<string>)
      ensures forall x :: x in r <==> x in sessions
      ensures NoDuplicates(r) && |r| == |sessions|
    {
      r := CollectSet(sessions.Keys);
    }

    /** Removes session `sid` and hands it back. */
    method RemoveSession(sid: string) returns (r: Result<Session>)
      requires Valid()
      modifies this`sessions
      ensures Valid()
      ensures sid !in old(sessions) ==> r == Err(SessionNotFound(sid)) && sessions == old(sessions)
      ensures sid in old(sessions) ==> r == Ok(old(sessions)[sid]) && sessions == old(sessions) - {sid}
      ensures sid !in sessions
    {
      if sid !in sessions {
        return Err(SessionNotFound(sid));
      }
      r := Ok(sessions[sid]);
      sessions := sessions - {sid};
    }

    /** Stores the consumer task's handle on session `sid`. */
    method SetSessionJoinHandle(sid: string, h: TaskHandle) returns (r: Result<()>)
      requires Valid()
      modifies sessions.Values`handle
      ensures sid !in sessions ==> r == Err(SessionNotFound(sid))
      ensures sid in sessions ==> r == Ok(()) && sessions[sid].handle == Some(h)
      ensures forall k :: k in sessions && k != sid ==> sessions[k].handle == old(sessions[k].handle)
    {
      if sid !in sessions {
        return Err(SessionNotFound(sid));
      }
      sessions[sid].SetJoinHandle(h);
      r := Ok(());
    }

    /**
     * The first critical section of the consumer loop: stop if session `sid`
     * is gone, otherwise take its oldest queued message, if any.
     */
    method TakeNextMessage(sid: string) returns (p: Poll)
      requires Valid()
      modifies sessions.Values`queue
      ensures p.Stopped? <==> sid !in sessions
      ensures sid in sessions ==>
        var (taken, rest) := Dequeue(old(sessions[sid].queue));
        && sessions[sid].queue == rest
        && p == (if taken.Some? then Received(taken.value) else Idle)
      ensures forall k :: k in sessions && k != sid ==> sessions[k].queue == old(sessions[k].queue)
    {
      if sid !in sessions {
        return Stopped;
      }
      var taken := sessions[sid].PopMessageFromStack();
      p := if taken.Some? then Received(taken.value) else Idle;
    }

    /**
     * The second critical section of the consumer loop: record `m` with the
     * generated response, provided generation succeeded and session `sid`
     * still exists.  A failed generation drops the message.
     */
    method RecordResponse(sid: string, m: Message, outcome: Generation)
      requires Valid()
      modifies sessions.Values`entries
      ensures sid in sessions && outcome.Generated? ==>
        sessions[sid].entries == old(sessions[sid].entries) + [SessionEntry.WithResponse(m, outcome.response)]
      ensures forall k :: k in sessions && (k != sid || outcome.Failed?) ==>
        sessions[k].entries == old(sessions[k].entries)
    {
      if outcome.Generated? && sid in sessions {
        sessions[sid].AddMessageWithResponse(m, outcome.response);
      }
    }

    /**
     * One pass of the consumer loop with no other operation in between:
     * poll, and when a message was taken, record it according to `outcome`.
     */
    method ConsumerStep(sid: string, outcome: Generation) returns (p: Poll)
      requires Valid()
      modifies sessions.Values`queue, sessions.Values`entries
      ensures p.Stopped? <==> sid !in sessions
      ensures sid in sessions ==>
        var q := old(sessions[sid].queue);
        && (q == [] ==> p.Idle? && sessions[sid].queue == [])
        && (q != [] ==> p == Received(q[0]) && sessions[sid].queue == q[1..])
        && sessions[sid].entries ==
             old(sessions[sid].entries)
             + (if p.Received? && outcome.Generated?
                then [SessionEntry.WithResponse(p.message, outcome.response)] else [])
      ensures forall k :: k in sessions && k != sid ==>
        sessions[k].queue == old(sessions[k].queue) && sessions[k].entries == old(sessions[k].entries)
    {
      p := TakeNextMessage(sid);
      if p.Received? {
        RecordResponse(sid, p.message, outcome);
      }
    }
  }
}
