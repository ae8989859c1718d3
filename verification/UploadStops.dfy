/** Stopping and cancelling, from their first action to their last: they can always be carried through,
    what they leave behind, and how soon the uploads end. */
module UploadStops {
  import opened Wire
  import opened TransferLoops
  import opened FinalName
  import opened UploadInterleavings
  import opened UploadReports

  // ---- stop() on its own ----

  predicate IsStops(a: Action) {
    a.StopFlag? || a.StopLock? || a.StopMark? || a.StopRemove? || a.StopClear?
  }

  /** Actions of the stopping thread only. */
  predicate StopsOnly(actions: seq<Action>) {
    if actions == [] then true else IsStops(actions[0]) && StopsOnly(actions[1..])
  }

  lemma OneMore(sha: Sha, s: State, a: Action, rest: seq<Action>, t: State)
    requires Enabled(s, a) && Runs(sha, Step(sha, s, a), rest, t, false)
    ensures Runs(sha, s, [a] + rest, t, false)
    ensures IsStops(a) && StopsOnly(rest) ==> StopsOnly([a] + rest)
  {
    assert ([a] + rest)[1..] == rest;
  }

  ghost function PartPaths(heap: map<nat, Session>, sids: set<nat>): set<Path>
    requires sids <= heap.Keys
  {
    set sid | sid in sids :: PartOf(heap[sid].target)
  }

  /** What stop does to the sessions in `sids`, and what it leaves alone. */
  ghost predicate StoppedAll(s: State, t: State, sids: set<nat>)
    requires sids <= s.heap.Keys
  {
    && t.heap.Keys == s.heap.Keys
    && (forall sid | sid in s.heap ::
          t.heap[sid] == if sid in sids then s.heap[sid].(cancelled := true) else s.heap[sid])
    && t.disk.files == s.disk.files - PartPaths(s.heap, sids)
    && t.others == s.others && t.conns == s.conns && t.reports == s.reports
  }

  /** With the lock, stop can go through the rest of its list. */
  lemma {:induction false} ListIsFinished(sha: Sha, s: State) returns (actions: seq<Action>, t: State)
    requires s.lock.Stopping? && s.lock.todo <= s.heap.Keys
    ensures StopsOnly(actions) && Runs(sha, s, actions, t, false)
    ensures StoppedAll(s, t, s.lock.todo)
    ensures t.lock == Stopping({}) && t.table == s.table && t.running == s.running && t.stopped == s.stopped
    decreases |s.lock.todo|
  {
    var todo := s.lock.todo;
    if todo == {} {
      actions, t := [], s;
      assert PartPaths(s.heap, {}) == {};
    } else {
      var sid :| sid in todo;
      var m := Marked(s, sid);
      MarkSteps(sha, s, sid);
      var rest;
      rest, t := ListIsFinished(sha, m);
      actions := [StopMark(sid)] + ([StopRemove(true)] + rest);
      OneMore(sha, Step(sha, s, StopMark(sid)), StopRemove(true), rest, t);
      OneMore(sha, s, StopMark(sid), [StopRemove(true)] + rest, t);
      MarkedThenAll(s, m, t, sid, todo);
    }
  }

  ghost function Marked(s: State, sid: nat): State
    requires s.lock.Stopping? && sid in s.heap
  {
    s.(heap := s.heap[sid := s.heap[sid].(cancelled := true)], lock := Stopping(s.lock.todo - {sid}),
       disk := Removed(s.disk, PartOf(s.heap[sid].target)))
  }

  lemma MarkSteps(sha: Sha, s: State, sid: nat)
    requires s.lock.Stopping? && sid in s.lock.todo && sid in s.heap
    ensures Enabled(s, StopMark(sid)) && Enabled(Step(sha, s, StopMark(sid)), StopRemove(true))
    ensures Step(sha, Step(sha, s, StopMark(sid)), StopRemove(true)) == Marked(s, sid)
  {
  }

  lemma MarkedThenAll(s: State, m: State, t: State, sid: nat, todo: set<nat>)
    requires s.lock.Stopping? && sid in todo && todo <= s.heap.Keys && m == Marked(s, sid)
    requires StoppedAll(m, t, todo - {sid})
    ensures StoppedAll(s, t, todo)
  {
    assert PartPaths(s.heap, todo) == PartPaths(m.heap, todo - {sid}) + {PartOf(s.heap[sid].target)} by {
      forall p
        ensures p in PartPaths(s.heap, todo) <==>
                  p in PartPaths(m.heap, todo - {sid}) || p == PartOf(s.heap[sid].target)
      {
        if x :| x in todo && PartOf(s.heap[x].target) == p {
          assert x == sid || (x in todo - {sid} && PartOf(m.heap[x].target) == p);
        }
      }
    }
    assert t.disk.files == s.disk.files - PartPaths(s.heap, todo);
  }

  /** A running server has not been stopped before. */
  lemma {:induction false} StoppedMeansNotRunning(sha: Sha, s: State, actions: seq<Action>, t: State)
    requires (s.running ==> !s.stopped) && Runs(sha, s, actions, t, false)
    ensures t.running ==> !t.stopped
    decreases |actions|
  {
    if actions != [] {
      StoppedMeansNotRunning(sha, Step(sha, s, actions[0]), actions[1..], t);
    }
  }

  /** The run of stop from the flag to the clear. */
  lemma StopRuns(sha: Sha, s: State) returns (actions: seq<Action>, t: State)
    requires s.running && !s.stopped && s.lock.Free? && s.table.Values <= s.heap.Keys
    ensures StopsOnly(actions) && Runs(sha, s, actions, t, false)
    ensures !t.running && t.stopped && t.table == map[] && t.lock.Free?
    ensures StoppedAll(s, t, s.table.Values)
  {
    var s2 := s.(running := false, lock := Stopping(s.table.Values), stopped := true);
    assert Step(sha, Step(sha, s, StopFlag), StopLock) == s2;
    var rest, s3 := ListIsFinished(sha, s2);
    t := s3.(table := map[], lock := Free);
    ClearLast(sha, s2, rest, s3, t);
    OneMore(sha, Step(sha, s, StopFlag), StopLock, rest + [StopClear], t);
    OneMore(sha, s, StopFlag, [StopLock] + (rest + [StopClear]), t);
    actions := [StopFlag] + ([StopLock] + (rest + [StopClear]));
  }

  lemma ClearLast(sha: Sha, s: State, rest: seq<Action>, m: State, t: State)
    requires StopsOnly(rest) && Runs(sha, s, rest, m, false)
    requires m.lock == Stopping({}) && t == m.(table := map[], lock := Free)
    ensures StopsOnly(rest + [StopClear]) && Runs(sha, s, rest + [StopClear], t, false)
  {
    assert Step(sha, m, StopClear) == t && Runs(sha, t, [], t, false);
    OneMore(sha, m, StopClear, [], t);
    assert [StopClear] + [] == [StopClear];
    RunsThen(sha, s, rest, m, [StopClear], t);
  }

  lemma StoppedAreDoomed(s: State, t: State, sids: set<nat>, c: nat)
    requires sids <= s.heap.Keys && StoppedAll(s, t, sids)
    requires c in t.conns && t.conns[c].sid in sids && !PassedTheCheck(t.conns[c].phase)
    ensures Doomed(t, c)
  {
  }

  /** From every reachable state in which the server runs and nobody holds the lock, stop can be carried
      through by its own actions alone. Then m_running is cleared, the table is empty, every session that
      was in it is cancelled and its `.part` path removed; no other file, session or connection has
      changed; and an upload of such a session that had not passed the check can no longer succeed. */
  lemma StopCanFinish(sha: Sha, s0: State, before: seq<Action>, s: State) returns (actions: seq<Action>, t: State)
    requires Initial(s0) && Runs(sha, s0, before, s, false) && s.running && s.lock.Free?
    ensures StopsOnly(actions) && Runs(sha, s, actions, t, false)
    ensures !t.running && t.stopped && t.table == map[] && t.lock.Free?
    ensures s.table.Values <= s.heap.Keys && StoppedAll(s, t, s.table.Values)
    ensures forall c | c in t.conns && t.conns[c].sid in s.table.Values && !PassedTheCheck(t.conns[c].phase) ::
      Doomed(t, c)
  {
    RunInv(sha, s0, before, s);
    StoppedMeansNotRunning(sha, s0, before, s);
    TableResolves(s);
    actions, t := StopRuns(sha, s);
    forall c | c in t.conns && t.conns[c].sid in s.table.Values && !PassedTheCheck(t.conns[c].phase)
      ensures Doomed(t, c)
    {
      StoppedAreDoomed(s, t, s.table.Values, c);
    }
  }

  lemma TableResolves(s: State)
    requires RefsOk(s)
    ensures s.table.Values <= s.heap.Keys
  {
    forall sid | sid in s.table.Values
      ensures sid in s.heap.Keys
    {
      var id :| id in s.table && s.table[id] == sid;
    }
  }

  predicate PassedTheCheck(p: Phase) {
    p.Probing? || p.Renaming? || IsSaved(p)
  }

  lemma {:induction false} RunsThen(sha: Sha, s: State, a: seq<Action>, m: State, b: seq<Action>, t: State)
    requires Runs(sha, s, a, m, false) && Runs(sha, m, b, t, false)
    ensures Runs(sha, s, a + b, t, false)
    ensures StopsOnly(a) && StopsOnly(b) ==> StopsOnly(a + b)
    decreases |a|
  {
    if a == [] {
      assert a + b == b;
    } else {
      assert (a + b)[1..] == a[1..] + b;
      RunsThen(sha, Step(sha, s, a[0]), a[1..], m, b, t);
    }
  }

  // ---- What follows a stop ----

  lemma {:induction false} StaysStopped(sha: Sha, s: State, actions: seq<Action>, t: State)
    requires !s.running && Runs(sha, s, actions, t, false)
    ensures !t.running
    decreases |actions|
  {
    if actions != [] {
      StaysStopped(sha, Step(sha, s, actions[0]), actions[1..], t);
    }
  }

  /** Once m_running was cleared it stays cleared, in every continuation. */
  lemma {:induction false} StopIsFinal(sha: Sha, s: State, actions: seq<Action>, t: State, i: nat)
    requires Runs(sha, s, actions, t, false) && i < |actions| && actions[i] == StopFlag
    ensures !t.running
    decreases |actions|
  {
    if i == 0 {
      StaysStopped(sha, Step(sha, s, StopFlag), actions[1..], t);
    } else {
      StopIsFinal(sha, Step(sha, s, actions[0]), actions[1..], t, i - 1);
    }
  }

  /** A thread that reads the cleared flag leaves the loop. */
  lemma StoppedGuardCloses(sha: Sha, s: State, c: nat, fault: bool)
    requires Enabled(s, Run(c, fault)) && !s.running && s.conns[c].phase.Guard?
    ensures Step(sha, s, Run(c, fault)).conns[c] == s.conns[c].(phase := Closing)
  {
  }

  /** How many more frames an upload can receive once the server is stopped or its session cancelled. */
  function FramesLeft(p: Phase, cancelled: bool): nat {
    if p.Body? || (p.GuardCancelled? && !cancelled) then 1 else 0
  }

  ghost predicate Ending(s: State, c: nat) {
    c in s.conns && s.conns[c].sid in s.heap && (!s.running || s.heap[s.conns[c].sid].cancelled)
  }

  lemma StepEnding(sha: Sha, s: State, a: Action, c: nat)
    requires Ending(s, c) && Enabled(s, a)
    ensures var t := Step(sha, s, a);
      && Ending(t, c) && t.conns[c].sid == s.conns[c].sid
      && |t.conns[c].progress| + FramesLeft(t.conns[c].phase, t.heap[t.conns[c].sid].cancelled)
           <= |s.conns[c].progress| + FramesLeft(s.conns[c].phase, s.heap[s.conns[c].sid].cancelled)
  {
    StepHeapGrows(sha, s, a);
    match a
    case Run(d, fault) => RunEnding(sha, s, d, fault, c);
    case _ => QuietStep(sha, s, a);
  }

  lemma RunEnding(sha: Sha, s: State, d: nat, fault: bool, c: nat)
    requires Ending(s, c) && Enabled(s, Run(d, fault))
    ensures var t := Step(sha, s, Run(d, fault));
      && Ending(t, c) && t.conns[c].sid == s.conns[c].sid
      && |t.conns[c].progress| + FramesLeft(t.conns[c].phase, t.heap[t.conns[c].sid].cancelled)
           <= |s.conns[c].progress| + FramesLeft(s.conns[c].phase, s.heap[s.conns[c].sid].cancelled)
  {
  }

  /** Stopping and cancelling take effect at once: whatever is still in the stream and however the
      threads interleave, an upload receives at most one more frame, and none if it was about to read
      m_running. */
  lemma {:induction false} AtMostOneMoreFrame(sha: Sha, s: State, actions: seq<Action>, t: State, c: nat)
    requires Ending(s, c) && Runs(sha, s, actions, t, false)
    ensures c in t.conns
    ensures |t.conns[c].progress|
         <= |s.conns[c].progress| + FramesLeft(s.conns[c].phase, s.heap[s.conns[c].sid].cancelled)
    decreases |actions|
  {
    if actions != [] {
      StepEnding(sha, s, actions[0], c);
      AtMostOneMoreFrame(sha, Step(sha, s, actions[0]), actions[1..], t, c);
    }
  }

  // ---- cancelTransfer() and registerTransfer() on their own ----

  /** With the lock free, a cancel of a known id can be carried through: the session is cancelled and its
      entry erased, its `.part` path is removed, and nothing else changes. */
  lemma CancelCanFinish(sha: Sha, s: State, id: string) returns (t: State)
    requires RefsOk(s) && s.lock.Free? && id in s.table
    ensures Runs(sha, s, [CancelFlag(id), CancelRemove(true)], t, false)
    ensures t.table == s.table - {id} && t.lock.Free? && t.conns == s.conns && t.reports == s.reports
    ensures t.running == s.running && t.others == s.others
    ensures var sid := s.table[id];
      && t.heap == s.heap[sid := s.heap[sid].(cancelled := true)]
      && t.disk.files == s.disk.files - {PartOf(s.heap[sid].target)}
  {
    var m := Step(sha, s, CancelFlag(id));
    t := Step(sha, m, CancelRemove(true));
    assert [CancelFlag(id), CancelRemove(true)][1..] == [CancelRemove(true)];
    assert [CancelRemove(true)][1..] == [];
    assert Runs(sha, t, [], t, false);
    assert Runs(sha, m, [CancelRemove(true)], t, false);
  }

  /** A session registered under an id is the one that a connection for the id gets. */
  lemma RegisteredIsServed(sha: Sha, s: State, id: string, sid: nat, session: Session, c: nat, stream: seq<byte>)
      returns (t: State)
    requires s.lock.Free? && sid !in s.heap && !session.cancelled && c !in s.conns
    ensures Runs(sha, s, [Register(id, sid, session), Accept(c, id, stream)], t, false)
    ensures c in t.conns && t.conns[c] == Fresh(sid, stream) && sid in t.heap && t.heap[sid] == session
    ensures t.table == s.table[id := sid] && t.disk == s.disk
    ensures forall d | d in s.conns :: d in t.conns && t.conns[d] == s.conns[d]
  {
    var r, a := Register(id, sid, session), Accept(c, id, stream);
    var m := Step(sha, s, r);
    t := Step(sha, m, a);
    assert [r, a][1..] == [a] && [a][1..] == [];
    assert Runs(sha, t, [], t, false);
    assert Runs(sha, m, [a], t, false);
  }
}
