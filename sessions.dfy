/**
 * A session of one agent: an ordered log of message/response entries, a
 * strict FIFO queue of pending inbound messages (called the "message stack"
 * in the system, although it is first in, first out), and the handle of the
 * background consumer that drains the queue.  Timestamps are not modelled.
 */
module Sessions {
  import opened Common

  /** One log entry: a message and the response recorded for it, if any. */
  datatype SessionEntry = SessionEntry(message: Message, response: Option<string>) {

    /** An entry for a message that has no response yet. */
    static function New(m: Message): (e: SessionEntry)
      ensures e.message == m && e.response.None?
    {
      SessionEntry(m, None)
    }

    /** An entry for a message together with its response. */
    static function WithResponse(m: Message, r: string): (e: SessionEntry)
      ensures e.message == m && e.response == Some(r)
    {
      SessionEntry(m, Some(r))
    }

    /** This entry with its response replaced; the message is kept. */
    function SetResponse(r: string): (e: SessionEntry)
      ensures e.message == message && e.response == Some(r)
    {
      this.(response := Some(r))
    }
  }

  /**
   * Taking the oldest message off a pending queue: the message taken (none
   * when the queue is empty) and the queue left behind.
   */
  function Dequeue(q: seq<Message>): (r: (Option<Message>, seq<Message>))
    ensures r.0.None? <==> q == []
    ensures r.0.None? ==> r.1 == q
    ensures r.0.Some? ==> [r.0.value] + r.1 == q
  {
    if q == [] then (None, q) else (Some(q[0]), q[1..])
  }

  /** An operation on a pending queue, as the session offers them. */
  datatype QueueOp = Push(m: Message) | Pop

  /** The messages a run of operations pushes, in the order pushed. */
  function Pushed(ops: seq<QueueOp>): seq<Message>
  {
    if ops == [] then []
    else (if ops[0].Push? then [ops[0].m] else []) + Pushed(ops[1..])
  }

  /**
   * One operation on queue `q`: the queue afterwards and the messages it
   * hands out (one for a successful pop, none otherwise).
   */
  function Step(q: seq<Message>, op: QueueOp): (seq<Message>, seq<Message>)
  {
    match op
    case Push(m) => (q + [m], [])
    case Pop =>
      var (taken, rest) := Dequeue(q);
      if taken.Some? then (rest, [taken.value]) else (rest, [])
  }

  /** Runs `ops` from queue `q`: the final queue and every message popped, in order. */
  function Replay(q: seq<Message>, ops: seq<QueueOp>): (seq<Message>, seq<Message>)
    decreases |ops|
  {
    if ops == [] then (q, [])
    else
      var (q', out) := Step(q, ops[0]);
      var (final, rest) := Replay(q', ops[1..]);
      (final, out + rest)
  }

  /** The messages one operation hands out, then the queue it leaves, are the queue it found, then what it pushed. */
  lemma StepPreservesOrder(q: seq<Message>, op: QueueOp)
    ensures Step(q, op).1 + Step(q, op).0 == q + (if op.Push? then [op.m] else [])
  {
  }

  /**
   * FIFO law: whatever a run of pushes and pops does, the messages popped,
   * followed by those still queued, are exactly the messages that were
   * queued at the start followed by those pushed, in the same order.
   */
  lemma {:induction false} FifoLaw(q: seq<Message>, ops: seq<QueueOp>)
    ensures Replay(q, ops).1 + Replay(q, ops).0 == q + Pushed(ops)
    decreases |ops|
  {
    if ops != [] {
      var (q', out) := Step(q, ops[0]);
      var (final, rest) := Replay(q', ops[1..]);
      var pushed := if ops[0].Push? then [ops[0].m] else [];
      StepPreservesOrder(q, ops[0]);
      FifoLaw(q', ops[1..]);
      calc {
        Replay(q, ops).1 + Replay(q, ops).0;
        out + (rest + final);
        out + q' + Pushed(ops[1..]);
        q + pushed + Pushed(ops[1..]);
        q + Pushed(ops);
      }
    }
  }

  /** Corollary of the FIFO law: messages leave in the order they arrived. */
  lemma PoppedInArrivalOrder(q: seq<Message>, ops: seq<QueueOp>)
    ensures Replay(q, ops).1 <= q + Pushed(ops)
  {
    FifoLaw(q, ops);
  }

  /** The state of one session, updated in place by its operations. */
  class Session {
    const id: string
    /** The log of processed messages. */
    var entries: seq<SessionEntry>
    /** The pending inbound messages, oldest first ("message stack"). */
    var queue: seq<Message>
    /** The handle of the consumer task, when one is stored. */
    var handle: Option<TaskHandle>

    /** A fresh session: no entries, nothing queued, no task handle. */
    constructor (id: string)
      ensures this.id == id
      ensures entries == [] && queue == [] && handle.None?
    {
      this.id := id;
      entries := [];
      queue := [];
      handle := None;
    }

    /** The number of entries is the length of the log a reader gets back. */
    function EntryCount(): (n: nat)
      reads this
      ensures n == |GetEntries()|
    {
      |entries|
    }

    /** The log itself, oldest entry first: what the mutators append is what a reader sees. */
    function GetEntries(): (r: seq<SessionEntry>)
      reads this
      ensures r == entries
    {
      entries
    }

    /**
     * The number of queued messages: zero exactly when a pop would find
     * nothing, and otherwise one more than a pop leaves behind.
     */
    function MessageStackSize(): (n: nat)
      reads this
      ensures n == 0 <==> Dequeue(queue).0.None?
      ensures n > 0 ==> |Dequeue(queue).1| == n - 1
    {
      |queue|
    }

    /** The queue is empty exactly when its size is zero. */
    function IsMessageStackEmpty(): (r: bool)
      reads this
      ensures r <==> MessageStackSize() == 0
    {
      queue == []
    }

    /** Appends one entry without a response. */
    method AddMessage(m: Message)
      modifies this`entries
      ensures entries == old(entries) + [SessionEntry.New(m)]
      ensures EntryCount() == old(EntryCount()) + 1 && entries[|entries| - 1].response.None?
    {
      entries := entries + [SessionEntry.New(m)];
    }

    /** Appends one entry holding the message and its response. */
    method AddMessageWithResponse(m: Message, r: string)
      modifies this`entries
      ensures entries == old(entries) + [SessionEntry.WithResponse(m, r)]
      ensures EntryCount() == old(EntryCount()) + 1 && entries[|entries| - 1].response == Some(r)
    {
      entries := entries + [SessionEntry.WithResponse(m, r)];
    }

    /** Sets the response of the last entry only; does nothing on an empty log. */
    method SetLastResponse(r: string)
      modifies this`entries
      ensures old(entries) == [] ==> entries == []
      ensures old(entries) != [] ==>
        && |entries| == |old(entries)|
        && entries[..|entries| - 1] == old(entries)[..|entries| - 1]
        && entries[|entries| - 1] == old(entries)[|entries| - 1].SetResponse(r)
    {
      if entries != [] {
        var last := |entries| - 1;
        entries := entries[last := entries[last].SetResponse(r)];
      }
    }

    /** Empties the log; the queue and the handle stay as they are. */
    method Clear()
      modifies this`entries
      ensures entries == []
      ensures queue == old(queue) && handle == old(handle)
    {
      entries := [];
    }

    /** Enqueues a message at the back of the queue. */
    method PushMessageToStack(m: Message)
      modifies this`queue
      ensures queue == old(queue) + [m]
    {
      queue := queue + [m];
    }

    /** Takes the oldest queued message, if any. */
    method PopMessageFromStack() returns (m: Option<Message>)
      modifies this`queue
      ensures (m, queue) == Dequeue(old(queue))
    {
      if queue == [] {
        m := None;
      } else {
        m := Some(queue[0]);
        queue := queue[1..];
      }
    }

    /** Stores the handle of the consumer task, replacing any earlier one. */
    method SetJoinHandle(h: TaskHandle)
      modifies this`handle
      ensures handle == Some(h)
    {
      handle := Some(h);
    }

    /** Hands out the stored handle and leaves none behind. */
    method TakeJoinHandle() returns (h: Option<TaskHandle>)
      modifies this`handle
      ensures h == old(handle) && handle.None?
    {
      h := handle;
      handle := None;
    }

    /** A snapshot copy: same id, log and queue, but never a task handle. */
    method Clone() returns (c: Session)
      ensures fresh(c)
      ensures c.id == id && c.entries == entries && c.queue == queue && c.handle.None?
    {
      c := new Session(id);
      c.entries := entries;
      c.queue := queue;
    }
  }
}
