/**
 * Values shared by the registry, the agents and their sessions: the routed
 * message, the error outcomes of the registry operations, and the small
 * Option/Result wrappers used for them.
 */
module Common {

  /** An optional value (Rust's `Option`). */
  datatype Option<+T> = None | Some(value: T)

  /** The outcome of a fallible operation (Rust's `Result<T, String>`). */
  datatype Result<+T> = Ok(value: T) | Err(error: Error)

  /**
   * The failures the core reports.  Each variant stands for one of the
   * distinct error texts the operations produce; the name or id carried is
   * the one interpolated into that text.
   */
  datatype Error =
    | AgentExists(name: string)          // "Agent with name '..' already exists"
    | AgentNotFound(name: string)        // "Agent '..' not found"
    | SenderNotFound(name: string)       // "Sender agent '..' not found"
    | RecipientNotFound(name: string)    // "Recipient agent '..' not found"
    | NotConnected(from: string, to: string)
    | SessionExists(id: string)          // "Session '..' already exists"
    | SessionNotFound(id: string)        // "Session '..' not found"

  /** No element of `s` occurs twice. */
  predicate NoDuplicates<T(==)>(s: seq<T>)
  {
    forall i, j :: 0 <= i < j < |s| ==> s[i] != s[j]
  }

  /**
   * Collects the elements of a set into a sequence, in an order the model
   * leaves open (the iteration order of a hash-based collection).
   */
  method CollectSet<T(==)>(s: set<T>) returns (r: seq<T>)
    ensures forall x :: x in r <==> x in s
    ensures NoDuplicates(r)
    ensures |r| == |s|
  {
    var rest := s;
    r := [];
    while rest != {}
      invariant rest <= s
      invariant forall x :: x in r <==> x in s && x !in rest
      invariant NoDuplicates(r)
      invariant |r| + |rest| == |s|
      decreases rest
    {
      var x :| x in rest;
      r := r + [x];
      rest := rest - {x};
    }
  }

  /** A message routed between two agents: a plain immutable value. */
  datatype Message = Message(from: string, to: string, content: string)

  /**
   * The handle of a background consumer task.  The model never awaits or
   * inspects a task; the handle is only stored, taken and dropped.
   */
  datatype TaskHandle = TaskHandle(task: nat)
}
