/** The outgoing queue of a WebSocket session: posted sends and write completions, on any threads. */
module WsSession {

  type Message = string

  // ---- The code's three pieces, each up to its mutex sections ----

  /** `pending` counts calls of doWrite that are due but have not run yet; `inFlight` holds the
      messages handed to async_write and not completed. The remaining fields record what happened. */
  datatype State = State(queue: seq<Message>, pending: nat, inFlight: seq<Message>,
                         enqueued: seq<Message>, written: seq<Message>, failed: bool, startsAfterFailure: nat)

  const START := State([], 0, [], [], [], false, 0)

  datatype Action =
    | PostedSend(message: Message)  // the posted body's mutex section
    | DoWrite                       // a due doWrite call: its mutex section, then async_write
    | Completed(i: nat)             // the i-th outstanding write succeeds: the handler's mutex section
    | Failed(i: nat)                // it fails: the handler returns at once

  predicate Enabled(s: State, a: Action) {
    match a
    case PostedSend(_) => true
    case DoWrite => s.pending > 0
    case Completed(i) => i < |s.inFlight|
    case Failed(i) => i < |s.inFlight|
  }

  function Without<T>(q: seq<T>, i: nat): seq<T>
    requires i < |q|
  {
    q[..i] + q[i + 1..]
  }

  function Step(s: State, a: Action): State
    requires Enabled(s, a)
  {
    match a
    case PostedSend(m) =>
      s.(queue := s.queue + [m], enqueued := s.enqueued + [m],
         pending := if s.queue != [] then s.pending else s.pending + 1)
    case DoWrite =>
      if s.queue == [] then s.(pending := s.pending - 1) else
      s.(pending := s.pending - 1, inFlight := s.inFlight + [s.queue[0]],
         startsAfterFailure := if s.failed then s.startsAfterFailure + 1 else s.startsAfterFailure)
    case Completed(i) =>
      var queue := if s.queue == [] then [] else s.queue[1..];
      s.(queue := queue, inFlight := Without(s.inFlight, i), written := s.written + [s.inFlight[i]],
         pending := if queue == [] then s.pending else s.pending + 1)
    case Failed(i) =>
      s.(inFlight := Without(s.inFlight, i), failed := true)
  }

  ghost predicate Runs(s: State, actions: seq<Action>, t: State)
    decreases |actions|
  {
    if actions == [] then s == t else Enabled(s, actions[0]) && Runs(Step(s, actions[0]), actions[1..], t)
  }

  ghost predicate Inv(s: State) {
    // at most one write is due or under way, and it is the front message
    && s.pending + |s.inFlight| <= 1
    && (s.inFlight != [] ==> s.queue != [] && s.inFlight[0] == s.queue[0])
    // nothing is lost, repeated or reordered
    && s.written + s.queue == s.enqueued
    // before the first error, a non-empty queue always has a write due or under way
    && (!s.failed ==> (s.queue != [] <==> s.pending + |s.inFlight| == 1))
    // after it, none ever again
    && (s.failed ==> s.queue != [] && s.pending == 0 && s.inFlight == [])
    && s.startsAfterFailure == 0
  }

  lemma StepInv(s: State, a: Action)
    requires Inv(s) && Enabled(s, a)
    ensures Inv(Step(s, a))
  {
    var t := Step(s, a);
    match a
    case PostedSend(m) => assert s.written + (s.queue + [m]) == s.written + s.queue + [m];
    case Completed(i) => assert s.written + [s.queue[0]] + s.queue[1..] == s.written + s.queue;
    case _ =>
  }

  lemma {:induction false} RunsInv(s: State, actions: seq<Action>, t: State)
    requires Inv(s) && Runs(s, actions, t)
    ensures Inv(t)
    decreases |actions|
  {
    if actions != [] {
      StepInv(s, actions[0]);
      RunsInv(Step(s, actions[0]), actions[1..], t);
    }
  }

  ghost predicate Reachable(s: State) {
    exists actions :: Runs(START, actions, s)
  }

  /** Main result, over every interleaving of sends and completions. */
  lemma WriteQueueIsSafe(s: State)
    requires Reachable(s)
    ensures s.pending + |s.inFlight| <= 1
    ensures s.inFlight != [] ==> s.queue != [] && s.inFlight[0] == s.queue[0]
    ensures s.written <= s.enqueued && s.written + s.queue == s.enqueued
    ensures !s.failed ==> (s.queue != [] <==> s.pending + |s.inFlight| == 1)
    ensures s.failed ==> s.pending == 0 && s.inFlight == [] && s.startsAfterFailure == 0
  {
    var actions :| Runs(START, actions, s);
    RunsInv(START, actions, s);
  }

  /** The messages an action list posts, in order. */
  function Posted(actions: seq<Action>): seq<Message> {
    if actions == [] then [] else
    (if actions[0].PostedSend? then [actions[0].message] else []) + Posted(actions[1..])
  }

  /** What was enqueued is what was posted: with the result above, the peer is sent a prefix of it. */
  lemma {:induction false} EnqueuedIsPosted(s: State, actions: seq<Action>, t: State)
    requires Runs(s, actions, t)
    ensures t.enqueued == s.enqueued + Posted(actions)
    decreases |actions|
  {
    if actions != [] {
      EnqueuedIsPosted(Step(s, actions[0]), actions[1..], t);
    }
  }

  // ---- Progress until the first error ----

  /** Steps that need nobody but the session itself and a peer that takes what it is sent. */
  predicate OwnSteps(actions: seq<Action>) {
    if actions == [] then true else (actions[0].DoWrite? || actions[0].Completed?) && OwnSteps(actions[1..])
  }

  /** No message is ever stranded: from every reachable state without an error, the session's own steps
      can write out the whole queue, and end with everything written in the order it was enqueued. */
  lemma {:induction false} QueueDrains(s: State) returns (actions: seq<Action>, t: State)
    requires Inv(s) && !s.failed
    ensures Runs(s, actions, t) && OwnSteps(actions)
    ensures t.queue == [] && t.written == s.enqueued
    decreases |s.queue|, s.pending
  {
    if s.queue == [] {
      return [], s;
    }
    var a := if s.pending > 0 then DoWrite else Completed(0);
    StepInv(s, a);
    var rest;
    rest, t := QueueDrains(Step(s, a));
    actions := [a] + rest;
    assert actions[1..] == rest;
  }

  // ---- The session object ----

  class WsSession {
    var writeQueue: seq<Message>
    ghost var state: State  // the whole session, of which the object stores the queue

    ghost predicate Valid()
      reads this
    {
      writeQueue == state.queue
    }

    constructor ()
      ensures Valid() && state == START
    {
      writeQueue, state := [], START;
    }

    /** The body posted by send; tells whether it goes on to call doWrite. */
    method PostedBody(message: Message) returns (callsDoWrite: bool)
      requires Valid()
      modifies this
      ensures Valid() && state == Step(old(state), PostedSend(message))
      ensures callsDoWrite <==> state.pending > old(state.pending)
    {
      var writeInProgress := writeQueue != [];
      writeQueue := writeQueue + [message];
      state := Step(state, PostedSend(message));
      callsDoWrite := !writeInProgress;
    }

    /** doWrite; hands at most one message to async_write. */
    method DoWrite() returns (started: seq<Message>)
      requires Valid() && state.pending > 0
      modifies this`state
      ensures Valid() && state == Step(old(state), Action.DoWrite)
      ensures state.inFlight == old(state.inFlight) + started
    {
      started := if writeQueue == [] then [] else [writeQueue[0]];
      state := Step(state, Action.DoWrite);
    }

    /** The completion handler of the i-th outstanding write; tells whether it goes on to call doWrite. */
    method OnWritten(ghost i: nat, ec: bool) returns (callsDoWrite: bool)
      requires Valid() && i < |state.inFlight|
      modifies this
      ensures Valid() && state == Step(old(state), if ec then Failed(i) else Completed(i))
      ensures callsDoWrite <==> state.pending > old(state.pending)
    {
      state := Step(state, if ec then Failed(i) else Completed(i));
      if ec {
        return false;
      }
      if writeQueue != [] {
        writeQueue := writeQueue[1..];
      }
      return writeQueue != [];
    }
  }
}
