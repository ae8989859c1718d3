/** The video receiver: NALUs go from the network thread to the decode thread through a bounded queue
    under a mutex. The class gives the critical sections; the state machine interleaves them with the
    condition variable and with stop. */
module StreamReceiver {
  import opened Wire

  const MAX_QUEUE_DEPTH := 120
  const MAX_NALU := 4 * 1024 * 1024

  type Nalu = seq<byte>

  // ---- The queue and the receive loop ----

  /** Queue contents after one more NALU: a full queue is emptied first. */
  function Enqueued(queue: seq<Nalu>, nalu: Nalu): seq<Nalu> {
    (if |queue| >= MAX_QUEUE_DEPTH then [] else queue) + [nalu]
  }

  /** The NALUs a connection delivers: one a frame, up to the first bad or unfinished frame. */
  function Nalus(stream: seq<byte>): seq<Nalu>
    decreases |stream|
  {
    match NextFrame(stream, MAX_NALU)
    case Whole(nalu, rest) => [nalu] + Nalus(rest)
    case _ => []
  }

  /** The next NALU with its length and limits written out: a length of 0 or above 4194304, or too few
      bytes behind it, ends the connection. */
  lemma NaluByBytes(b0: byte, b1: byte, b2: byte, b3: byte, n: nat, later: seq<byte>)
    requires n == 16777216 * b0 as int + 65536 * b1 as int + 256 * b2 as int + b3 as int
    ensures Nalus([b0, b1, b2, b3] + later) ==
      if n == 0 || n > 4194304 || n > |later| then [] else [later[..n]] + Nalus(later[n..])
  {
    FrameByBytes(b0, b1, b2, b3, n, later, MAX_NALU);
  }

  function EnqueuedAll(queue: seq<Nalu>, nalus: seq<Nalu>): seq<Nalu>
    decreases |nalus|
  {
    if nalus == [] then queue else EnqueuedAll(Enqueued(queue, nalus[0]), nalus[1..])
  }

  class NaluQueue {
    var queue: seq<Nalu>

    constructor ()
      ensures queue == []
    {
      queue := [];
    }

    method Push(nalu: Nalu)
      modifies this
      ensures queue == Enqueued(old(queue), nalu)
    {
      if |queue| >= MAX_QUEUE_DEPTH {
        queue := [];
      }
      queue := queue + [nalu];
    }

    method Pop() returns (nalu: Nalu)
      requires queue != []
      modifies this
      ensures [nalu] + queue == old(queue)
    {
      nalu := queue[0];
      queue := queue[1..];
    }

    method Clear()
      modifies this
      ensures queue == []
    {
      queue := [];
    }
  }

  /** The receive loop of one connection, with nobody popping meanwhile and m_running found set `turns`
      times: whatever pieces the network delivers, the queue ends up as the byte stream alone dictates. */
  method ReceiveLoop(sock: Socket, q: NaluQueue, turns: nat) returns (received: seq<Nalu>)
    modifies sock`incoming, q
    ensures var nalus := Nalus(old(sock.incoming));
      received == if turns < |nalus| then nalus[..turns] else nalus
    ensures q.queue == EnqueuedAll(old(q.queue), received)
  {
    received := [];
    var left := turns;
    while left > 0
      invariant |received| + left == turns
      invariant received + Nalus(sock.incoming) == Nalus(old(sock.incoming))
      invariant q.queue == EnqueuedAll(old(q.queue), received)
    {
      left := left - 1;
      ghost var before := sock.incoming;
      var frame := sock.ReadFrame(MAX_NALU);
      if !frame.Whole? {
        return;
      }
      NextNalu(Nalus(old(sock.incoming)), received, before);
      EnqueuedOneMore(old(q.queue), received, frame.payload);
      q.Push(frame.payload);
      received := received + [frame.payload];
    }
  }

  lemma NextNalu(all: seq<Nalu>, received: seq<Nalu>, s: seq<byte>)
    requires NextFrame(s, MAX_NALU).Whole? && received + Nalus(s) == all
    ensures var f := NextFrame(s, MAX_NALU); received + [f.payload] + Nalus(f.rest) == all
  {
    var f := NextFrame(s, MAX_NALU);
    assert received + ([f.payload] + Nalus(f.rest)) == received + [f.payload] + Nalus(f.rest);
  }

  lemma {:induction false} EnqueuedOneMore(queue: seq<Nalu>, nalus: seq<Nalu>, nalu: Nalu)
    ensures EnqueuedAll(queue, nalus + [nalu]) == Enqueued(EnqueuedAll(queue, nalus), nalu)
    decreases |nalus|
  {
    if nalus == [] {
      assert ([] + [nalu])[1..] == [];
    } else {
      assert (nalus + [nalu])[1..] == nalus[1..] + [nalu];
      EnqueuedOneMore(Enqueued(queue, nalus[0]), nalus[1..], nalu);
    }
  }

  /** Which NALUs are still queued follows from their number: the last 1 to 120 of them. */
  lemma {:induction false} QueueIsASuffix(nalus: seq<Nalu>)
    ensures var q := EnqueuedAll([], nalus);
      && |q| <= 120
      && |q| == (if nalus == [] then 0 else (|nalus| - 1) % 120 + 1)
      && q == nalus[|nalus| - |q|..]
    decreases |nalus|
  {
    if nalus != [] {
      var init, last := nalus[..|nalus| - 1], nalus[|nalus| - 1];
      QueueIsASuffix(init);
      EnqueuedOneMore([], init, last);
      assert nalus == init + [last];
      var q := EnqueuedAll([], init);
      if |q| < MAX_QUEUE_DEPTH {
        assert q + [last] == nalus[|nalus| - |q| - 1..];
      } else {
        assert [last] == nalus[|nalus| - 1..];
      }
    }
  }

  // ---- All threads together ----

  datatype NetPhase = NetTop | NetRead | NetLock(nalu: Nalu) | NetPush(nalu: Nalu) | NetDone

  datatype DecPhase =
    | DecTop                 // loop condition: about to read m_running
    | DecLock                // about to take the mutex
    | DecEval                // holds it, about to evaluate the wait predicate
    | DecSleep               // holds it, predicate was false, about to release and sleep
    | DecAsleep              // asleep on the condition variable
    | DecRelock              // woken, about to take the mutex again
    | DecCheck               // holds it, predicate was true
    | DecDecode(nalu: Nalu)  // released it, NALU in hand
    | DecDone

  datatype StopPhase = StopIdle | StopLock | StopClear | StopNotify | StopJoin

  datatype Owner = Nobody | Net | Dec | Stop

  datatype State = State(running: bool, queue: seq<Nalu>, owner: Owner, net: NetPhase, dec: DecPhase, stop: StopPhase,
                         received: seq<Nalu>, decoded: seq<Nalu>, popsSinceStop: nat)

  datatype Action =
    | NetTurn(nalu: Option)  // with the NALU the socket delivers, or None when the connection breaks
    | NetReconnect           // the accept loop hands the thread another connection
    | DecTurn
    | StopTurn
    | SpuriousWake

  datatype Option = None | Some(nalu: Nalu)

  const START := State(true, [], Nobody, NetTop, DecTop, StopIdle, [], [], 0)

  /** Can the thread move? Taking the mutex needs it free; sleeping needs a wake-up. */
  predicate Enabled(s: State, a: Action) {
    match a
    case NetTurn(_) => !s.net.NetDone? && (s.net.NetLock? ==> s.owner.Nobody?)
    case NetReconnect => s.net.NetDone?
    case DecTurn => !s.dec.DecAsleep? && !s.dec.DecDone? && (s.dec.DecLock? || s.dec.DecRelock? ==> s.owner.Nobody?)
    case StopTurn => !s.stop.StopJoin? && (s.stop.StopLock? ==> s.owner.Nobody?)
    case SpuriousWake => s.dec.DecAsleep?
  }

  function Woken(dec: DecPhase): DecPhase {
    if dec.DecAsleep? then DecRelock else dec
  }

  function NetStep(s: State, nalu: Option): State {
    match s.net
    case NetTop => s.(net := if s.running then NetRead else NetDone)
    case NetRead => s.(net := if nalu.Some? then NetLock(nalu.nalu) else NetDone)
    case NetLock(n) => s.(net := NetPush(n), owner := Net)
    case NetPush(n) =>
      s.(net := NetTop, owner := Nobody, queue := Enqueued(s.queue, n), received := s.received + [n],
         dec := Woken(s.dec))
    case NetDone => s
  }

  function DecStep(s: State): State {
    match s.dec
    case DecTop => s.(dec := if s.running then DecLock else DecDone)
    case DecLock => s.(dec := DecEval, owner := Dec)
    case DecEval => s.(dec := if s.queue != [] || !s.running then DecCheck else DecSleep)
    case DecSleep => s.(dec := DecAsleep, owner := Nobody)
    case DecAsleep => s
    case DecRelock => s.(dec := DecEval, owner := Dec)
    case DecCheck =>
      if !s.running && s.queue == [] then s.(dec := DecDone, owner := Nobody)
      else if s.queue == [] then s  // popping an empty deque: NeverPopsEmpty rules it out
      else s.(dec := DecDecode(s.queue[0]), owner := Nobody, queue := s.queue[1..],
              popsSinceStop := if s.running then 0 else s.popsSinceStop + 1)
    case DecDecode(n) => s.(dec := DecTop, decoded := s.decoded + [n])
    case DecDone => s
  }

  /** stop(): clear m_running, take the queue lock, clear the queue, release, notify all, join. */
  function StopStep(s: State): State {
    match s.stop
    case StopIdle => s.(running := false, stop := StopLock)
    case StopLock => s.(owner := Stop, stop := StopClear)
    case StopClear => s.(queue := [], owner := Nobody, stop := StopNotify)
    case StopNotify => s.(dec := Woken(s.dec), stop := StopJoin)
    case StopJoin => s
  }

  function Step(s: State, a: Action): State
    requires Enabled(s, a)
  {
    match a
    case NetTurn(nalu) => NetStep(s, nalu)
    case NetReconnect => s.(net := NetTop)
    case DecTurn => DecStep(s)
    case StopTurn => StopStep(s)
    case SpuriousWake => s.(dec := DecRelock)
  }

  ghost predicate Runs(s: State, actions: seq<Action>, t: State)
    decreases |actions|
  {
    if actions == [] then s == t else Enabled(s, actions[0]) && Runs(Step(s, actions[0]), actions[1..], t)
  }

  predicate DecHolds(dec: DecPhase) {
    dec.DecEval? || dec.DecSleep? || dec.DecCheck?
  }

  /** Has the decode thread committed, before m_running was cleared, to one more pass through the loop? */
  predicate Committed(dec: DecPhase) {
    dec.DecLock? || dec.DecRelock? || dec.DecAsleep? || DecHolds(dec)
  }

  ghost predicate Inv(s: State) {
    // the mutex
    && (s.owner.Net? <==> s.net.NetPush?)
    && (s.owner.Dec? <==> DecHolds(s.dec))
    && (s.owner.Stop? <==> s.stop.StopClear?)
    // the wait
    && (s.running <==> s.stop.StopIdle?)
    && (s.dec.DecCheck? ==> s.queue != [] || !s.running)
    && (s.dec.DecSleep? ==> s.queue == [] && (s.running || s.stop.StopLock?))
    && (s.dec.DecAsleep? && s.queue != [] ==> false)
    && (s.stop.StopJoin? ==> !s.dec.DecAsleep?)
    // the bounds
    && |s.queue| <= MAX_QUEUE_DEPTH
    && s.popsSinceStop <= (if Committed(s.dec) then 0 else 1)
    && (s.running ==> s.popsSinceStop == 0)
  }

  lemma StepInv(s: State, a: Action)
    requires Inv(s) && Enabled(s, a)
    ensures Inv(Step(s, a))
  {
  }

  lemma {:induction false} RunsInv(s: State, actions: seq<Action>, t: State)
    requires Inv(s) && Runs(s, actions, t)
    ensures Inv(t)
    decreases |actions|
  {
    if actions != [] {
      StepInv(s, actions[0]);
      RunsInv(Step(s, actions[0]), actions[1..], t);
    }
  }

  ghost predicate Reachable(s: State) {
    exists actions :: Runs(START, actions, s)
  }

  lemma ReachableInv(s: State)
    requires Reachable(s)
    ensures Inv(s)
  {
    var actions :| Runs(START, actions, s);
    RunsInv(START, actions, s);
  }

  /** The decode thread never takes an NALU from an empty queue, and the queue never outgrows its bound. */
  lemma NeverPopsEmpty(s: State)
    requires Reachable(s)
    ensures |s.queue| <= 120
    ensures s.dec.DecCheck? ==> s.queue != [] || !s.running
  {
    ReachableInv(s);
  }

  /** No wake-up is lost: once stop has notified, the decode thread is neither asleep nor about to be.
      And after m_running was cleared it takes at most one more NALU. */
  lemma NoLostWakeUp(s: State)
    requires Reachable(s)
    ensures s.stop.StopJoin? ==> !s.dec.DecAsleep? && !s.dec.DecSleep?
    ensures s.popsSinceStop <= 1
  {
    ReachableInv(s);
  }

  /** NALUs the network thread can still enqueue once m_running is cleared. */
  function NalusLeft(net: NetPhase): nat {
    if net.NetRead? || net.NetLock? || net.NetPush? then 1 else 0
  }

  /** And the network thread enqueues at most one more, whatever the socket still delivers. */
  lemma {:induction false} AtMostOneMoreNalu(s: State, actions: seq<Action>, t: State)
    requires !s.running && Runs(s, actions, t)
    ensures !t.running && |t.received| <= |s.received| + NalusLeft(s.net)
    decreases |actions|
  {
    if actions != [] {
      NaluStep(s, actions[0]);
      AtMostOneMoreNalu(Step(s, actions[0]), actions[1..], t);
    }
  }

  lemma NaluStep(s: State, a: Action)
    requires !s.running && Enabled(s, a)
    ensures var t := Step(s, a);
      !t.running && |t.received| + NalusLeft(t.net) <= |s.received| + NalusLeft(s.net)
  {
  }

  // ---- The decode thread ends ----

  /** Own steps the decode thread still makes once stop has notified. */
  function StepsLeft(dec: DecPhase): nat {
    match dec
    case DecLock => 6
    case DecRelock => 6
    case DecEval => 5
    case DecCheck => 4
    case DecDecode(_) => 3
    case DecTop => 2
    case _ => 0
  }

  function DecTurns(actions: seq<Action>): nat {
    if actions == [] then 0 else (if actions[0].DecTurn? then 1 else 0) + DecTurns(actions[1..])
  }

  lemma StepsLeftDrops(s: State, a: Action)
    requires Inv(s) && s.stop.StopJoin? && Enabled(s, a)
    ensures var s' := Step(s, a);
      && s'.stop.StopJoin?
      && StepsLeft(s'.dec) + (if a.DecTurn? then 1 else 0) <= StepsLeft(s.dec)
  {
  }

  /** After the notification the decode thread makes at most six more steps in any interleaving, so
      the join returns; and whenever it has to wait, it is for the network thread's next step only. */
  lemma {:induction false} DecodeThreadEnds(s: State, actions: seq<Action>, t: State)
    requires Inv(s) && s.stop.StopJoin? && Runs(s, actions, t)
    ensures DecTurns(actions) <= StepsLeft(s.dec) <= 6
    ensures t.dec.DecDone? || Enabled(t, DecTurn) || (t.net.NetPush? && Enabled(Step(t, NetTurn(None)), DecTurn))
    decreases |actions|
  {
    if actions != [] {
      StepsLeftDrops(s, actions[0]);
      StepInv(s, actions[0]);
      DecodeThreadEnds(Step(s, actions[0]), actions[1..], t);
    }
  }

  /** m_running is cleared, yet a notification now would wake nobody and the decode thread falls asleep. */
  ghost predicate AboutToMissIt(s: State) {
    && !s.running && s.stop.StopLock? && Woken(s.dec) == s.dec
    && Enabled(s, DecTurn) && Step(s, DecTurn).dec.DecAsleep?
  }

  /** Why stop takes the queue lock before it notifies: without it, the notification could fall
      between a false predicate and the sleep that follows, with m_running already cleared. */
  lemma WindowBeforeTheLock()
    ensures exists s :: Reachable(s) && AboutToMissIt(s)
  {
    var s1 := Step(START, DecTurn);
    var s2 := Step(s1, DecTurn);
    var s3 := Step(s2, DecTurn);
    var s4 := Step(s3, StopTurn);
    assert Runs(s4, [], s4);
    assert Runs(s3, [StopTurn], s4) by { assert [StopTurn][1..] == []; }
    assert Runs(s2, [DecTurn, StopTurn], s4) by { assert [DecTurn, StopTurn][1..] == [StopTurn]; }
    assert Runs(s1, [DecTurn, DecTurn, StopTurn], s4) by {
      assert [DecTurn, DecTurn, StopTurn][1..] == [DecTurn, StopTurn];
    }
    var all := [DecTurn, DecTurn, DecTurn, StopTurn];
    assert all[1..] == [DecTurn, DecTurn, StopTurn];
    assert Runs(START, all, s4);
    assert Reachable(s4) && AboutToMissIt(s4);
  }

  // ---- Nothing is lost but what is dropped on purpose ----

  /** What became of a stretch of received NALUs: one taken by the decode thread, a full queue dropped
      on overflow, or the queue dropped by stop. */
  datatype Fate = Taken(nalu: Nalu) | Overflowed(block: seq<Nalu>) | Stopped(block: seq<Nalu>)

  function Stretch(f: Fate): seq<Nalu> {
    if f.Taken? then [f.nalu] else f.block
  }

  function Everything(log: seq<Fate>): seq<Nalu> {
    if log == [] then [] else Everything(log[..|log| - 1]) + Stretch(log[|log| - 1])
  }

  function TakenOnly(log: seq<Fate>): seq<Nalu> {
    if log == [] then [] else
    var last := log[|log| - 1];
    TakenOnly(log[..|log| - 1]) + if last.Taken? then [last.nalu] else []
  }

  function Stops(log: seq<Fate>): nat {
    if log == [] then 0 else Stops(log[..|log| - 1]) + if log[|log| - 1].Stopped? then 1 else 0
  }

  function InHand(dec: DecPhase): seq<Nalu> {
    if dec.DecDecode? then [dec.nalu] else []
  }

  ghost predicate Accounts(log: seq<Fate>, s: State) {
    && s.received == Everything(log) + s.queue
    && s.decoded + InHand(s.dec) == TakenOnly(log)
    && Stops(log) == (if s.stop.StopNotify? || s.stop.StopJoin? then 1 else 0)
    && forall i | 0 <= i < |log| && log[i].Overflowed? :: |log[i].block| == 120
  }

  /** The fates one action decides. */
  function NextFates(s: State, a: Action): seq<Fate> {
    match a
    case NetTurn(_) => if s.net.NetPush? && |s.queue| >= MAX_QUEUE_DEPTH then [Overflowed(s.queue)] else []
    case DecTurn => if s.dec.DecCheck? && s.queue != [] then [Taken(s.queue[0])] else []
    case StopTurn => if s.stop.StopClear? then [Stopped(s.queue)] else []
    case _ => []
  }

  lemma LogAppend(log: seq<Fate>, f: Fate)
    ensures Everything(log + [f]) == Everything(log) + Stretch(f)
    ensures TakenOnly(log + [f]) == TakenOnly(log) + if f.Taken? then [f.nalu] else []
    ensures Stops(log + [f]) == Stops(log) + if f.Stopped? then 1 else 0
  {
    assert (log + [f])[..|log|] == log;
  }

  lemma PopAccounts(log: seq<Fate>, s: State)
    requires Accounts(log, s) && Enabled(s, DecTurn) && s.dec.DecCheck? && s.queue != []
    ensures Accounts(log + [Taken(s.queue[0])], Step(s, DecTurn))
  {
    var e := Everything(log);
    LogAppend(log, Taken(s.queue[0]));
    assert e + [s.queue[0]] + s.queue[1..] == e + s.queue;
    assert s.decoded + [] == s.decoded;
  }

  lemma DecStepAccounts(log: seq<Fate>, s: State)
    requires Enabled(s, DecTurn) && Accounts(log, s)
    ensures Accounts(log + NextFates(s, DecTurn), Step(s, DecTurn))
  {
    if s.dec.DecCheck? && s.queue != [] {
      PopAccounts(log, s);
    } else {
      assert log + [] == log;
      if s.dec.DecDecode? {
        assert s.decoded + [s.dec.nalu] + [] == s.decoded + [s.dec.nalu];
      }
    }
  }

  lemma PushAccounts(log: seq<Fate>, s: State, nalu: Option)
    requires Enabled(s, NetTurn(nalu)) && Accounts(log, s) && s.net.NetPush? && |s.queue| < MAX_QUEUE_DEPTH
    ensures Accounts(log, Step(s, NetTurn(nalu)))
  {
    var e, n := Everything(log), s.net.nalu;
    assert e + s.queue + [n] == e + (s.queue + [n]);
  }

  lemma OverflowAccounts(log: seq<Fate>, s: State, nalu: Option)
    requires Enabled(s, NetTurn(nalu)) && Accounts(log, s) && s.net.NetPush? && |s.queue| == MAX_QUEUE_DEPTH
    ensures Accounts(log + [Overflowed(s.queue)], Step(s, NetTurn(nalu)))
  {
    var f, n, t := Overflowed(s.queue), s.net.nalu, Step(s, NetTurn(nalu));
    LogAppend(log, f);
    assert [] + [n] == [n];
    assert t.queue == [n] && t.received == Everything(log + [f]) + [n];
    assert forall i | 0 <= i < |log + [f]| :: (log + [f])[i] == if i < |log| then log[i] else f;
  }

  lemma NetStepAccounts(log: seq<Fate>, s: State, nalu: Option)
    requires Inv(s) && Enabled(s, NetTurn(nalu)) && Accounts(log, s)
    ensures Accounts(log + NextFates(s, NetTurn(nalu)), Step(s, NetTurn(nalu)))
  {
    assert log + [] == log;
    if s.net.NetPush? && |s.queue| == MAX_QUEUE_DEPTH {
      OverflowAccounts(log, s, nalu);
    } else if s.net.NetPush? {
      PushAccounts(log, s, nalu);
    }
  }

  lemma StepAccounts(log: seq<Fate>, s: State, a: Action)
    requires Inv(s) && Enabled(s, a) && Accounts(log, s)
    ensures Accounts(log + NextFates(s, a), Step(s, a))
  {
    match a
    case NetTurn(nalu) => NetStepAccounts(log, s, nalu);
    case DecTurn => DecStepAccounts(log, s);
    case StopTurn => StopStepAccounts(log, s);
    case _ => assert log + [] == log;
  }

  lemma StopStepAccounts(log: seq<Fate>, s: State)
    requires Inv(s) && Enabled(s, StopTurn) && Accounts(log, s)
    ensures Accounts(log + NextFates(s, StopTurn), Step(s, StopTurn))
  {
    if s.stop.StopClear? {
      LogAppend(log, Stopped(s.queue));
      assert Everything(log) + s.queue + [] == s.received;
    } else {
      assert log + [] == log;
    }
  }

  lemma {:induction false} RunsAccounts(log: seq<Fate>, s: State, actions: seq<Action>, t: State)
      returns (log': seq<Fate>)
    requires Inv(s) && Accounts(log, s) && Runs(s, actions, t)
    ensures Accounts(log', t)
    decreases |actions|
  {
    if actions == [] {
      return log;
    }
    StepInv(s, actions[0]);
    StepAccounts(log, s, actions[0]);
    log' := RunsAccounts(log + NextFates(s, actions[0]), Step(s, actions[0]), actions[1..], t);
  }

  /** Conservation, in every interleaving: cut the received sequence into NALUs taken, in order, blocks
      of exactly 120 dropped on overflow, at most one block dropped by stop, and the queue; the taken
      ones are exactly those decoded and in hand. */
  lemma QueueConservation(s: State)
    requires Reachable(s)
    ensures exists log :: Accounts(log, s) && Stops(log) <= 1
  {
    var actions :| Runs(START, actions, s);
    assert Accounts([], START);
    var log := RunsAccounts([], START, actions, s);
    assert Accounts(log, s) && Stops(log) <= 1;
  }
}
