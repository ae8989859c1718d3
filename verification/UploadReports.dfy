/** What upload connections report, in every run: any number of uploads, on any targets, in any
    interleaving with each other and with cancelling, stopping and other programs. */
module UploadReports {
  import opened Wire
  import opened TransferLoops
  import opened FinalName
  import opened FileTransferServer
  import opened UploadInterleavings

  // ---- What holds of one connection, whatever happens to the folder ----

  /** The loop has done what `Receive` does on the bytes it consumed. */
  ghost predicate LoopOk(cn: Conn, se: Session) {
    var all := Receive(cn.stream, 0, se.size);
    if cn.error then all.error else Accounted(all, cn.payload, cn.progress, cn.rest, cn.total, se.size)
  }

  /** Why the loop was left, when no error was seen. */
  ghost predicate LeftOk(cn: Conn, se: Session, running: bool) {
    (cn.phase.Closing? || cn.phase.Checking?) && !cn.error ==> cn.total >= se.size || !running || se.cancelled
  }

  /** The stream is bad exactly if some of the payload was not written; what was written comes first. */
  ghost predicate WriteOk(cn: Conn) {
    cn.written <= cn.payload && (cn.bad <==> cn.written != cn.payload)
  }

  ghost predicate Verified(sha: Sha, cn: Conn, se: Session) {
    var all := Receive(cn.stream, 0, se.size);
    Complete(all, se.size) && cn.payload == all.payload && HashAccepted(sha, se.sha256, cn.payload)
  }

  ghost predicate FailedOk(sha: Sha, cn: Conn, se: Session, running: bool, why: Why) {
    var all := Receive(cn.stream, 0, se.size);
    match why
    case Interrupted => se.cancelled || !running || !Complete(all, se.size)
    case Mismatch => Complete(all, se.size) && !HashAccepted(sha, se.sha256, all.payload)
    case RenameFailed(_) => Verified(sha, cn, se)
    case OpenFailed => true
  }

  ghost predicate PhaseOk(sha: Sha, cn: Conn, se: Session, running: bool) {
    match cn.phase
    case Opening => cn == Fresh(cn.sid, cn.stream)
    case Guard => LoopOk(cn, se) && !cn.error
    case GuardCancelled => LoopOk(cn, se) && !cn.error
    case Body => LoopOk(cn, se) && !cn.error && cn.total < se.size
    case Closing => LoopOk(cn, se)
    case Checking => LoopOk(cn, se)
    case Probing(_) => Verified(sha, cn, se)
    case Renaming(_) => Verified(sha, cn, se)
    case Discarding(why) => FailedOk(sha, cn, se, running, why) && why != OpenFailed
    case Reporting(Saved(_)) => Verified(sha, cn, se)
    case Done(Saved(_)) => Verified(sha, cn, se)
    case Reporting(Failed(why)) => FailedOk(sha, cn, se, running, why)
    case Done(Failed(why)) => FailedOk(sha, cn, se, running, why)
  }

  ghost predicate ConnOk(sha: Sha, cn: Conn, se: Session, running: bool) {
    WriteOk(cn) && LeftOk(cn, se, running) && PhaseOk(sha, cn, se, running)
  }

  /** Other threads cannot spoil a connection's state: flags only go one way. */
  lemma ConnStable(sha: Sha, cn: Conn, se: Session, se': Session, running: bool, running': bool)
    requires ConnOk(sha, cn, se, running)
    requires se' == se.(cancelled := se'.cancelled) && (se.cancelled ==> se'.cancelled) && (running' ==> running)
    ensures ConnOk(sha, cn, se', running')
  {
  }

  /** A connection's own action keeps its state in order, whatever it finds in the folder. */
  lemma TurnOk(sha: Sha, cn: Conn, se: Session, disk: Disk, running: bool, fault: bool)
    requires ConnOk(sha, cn, se, running) && !cn.phase.Done?
    ensures ConnOk(sha, Turn(sha, cn, se, disk, running, fault).conn, se, running)
  {
    match cn.phase
    case Opening => OpenOk(sha, cn, se, disk, running, fault);
    case Body => BodyOk(sha, cn, se, disk, running, fault);
    case Checking => CheckOk(sha, cn, se, disk, running, fault);
    case _ =>
  }

  lemma OpenOk(sha: Sha, cn: Conn, se: Session, disk: Disk, running: bool, fault: bool)
    requires ConnOk(sha, cn, se, running) && cn.phase.Opening?
    ensures ConnOk(sha, Turn(sha, cn, se, disk, running, fault).conn, se, running)
  {
    var all := Receive(cn.stream, 0, se.size);
    assert [] + all.payload == all.payload && [] + all.progress == all.progress;
  }

  lemma BodyOk(sha: Sha, cn: Conn, se: Session, disk: Disk, running: bool, fault: bool)
    requires ConnOk(sha, cn, se, running) && cn.phase.Body?
    ensures ConnOk(sha, Turn(sha, cn, se, disk, running, fault).conn, se, running)
  {
    AccountedTurn(Receive(cn.stream, 0, se.size), cn.payload, cn.progress, cn.rest, cn.total, se.size);
    match NextFrame(cn.rest, MAX_CHUNK)
    case Whole(p, rest) => ReceivedWriteOk(cn, p, rest, disk.room);
    case _ =>
  }

  lemma ReceivedWriteOk(cn: Conn, p: seq<byte>, rest: seq<byte>, room: nat)
    requires WriteOk(cn) && p != []
    ensures WriteOk(Received(cn, p, rest, room))
  {
    var cn' := Received(cn, p, rest, room);
    if cn.bad {
      assert |cn'.written| < |cn'.payload|;
    } else {
      assert |cn'.written| == |cn.payload| + |Taken(p, room)|;
    }
  }

  lemma CheckOk(sha: Sha, cn: Conn, se: Session, disk: Disk, running: bool, fault: bool)
    requires ConnOk(sha, cn, se, running) && cn.phase.Checking?
    ensures ConnOk(sha, Turn(sha, cn, se, disk, running, fault).conn, se, running)
  {
    if !cn.error && cn.total >= se.size {
      AccountedAtTheEnd(Receive(cn.stream, 0, se.size), cn.payload, cn.progress, cn.rest, cn.total, se.size);
    }
  }

  // ---- What holds of the whole state ----

  ghost predicate ConnsOk(sha: Sha, s: State)
    requires RefsOk(s)
  {
    forall c | c in s.conns :: ConnOk(sha, s.conns[c], Se(s, c), s.running)
  }

  ghost function ReportsOf(reports: seq<(nat, bool)>, c: nat): seq<bool> {
    if reports == [] then [] else
    var last := reports[|reports| - 1];
    ReportsOf(reports[..|reports| - 1], c) + if last.0 == c then [last.1] else []
  }

  ghost predicate ReportOk(s: State, x: nat) {
    ReportsOf(s.reports, x) ==
      if x in s.conns && s.conns[x].phase.Done? then [s.conns[x].phase.outcome.Saved?] else []
  }

  ghost predicate ReportsOk(s: State) {
    forall c :: ReportOk(s, c)
  }

  ghost predicate Inv(sha: Sha, s: State) {
    RefsOk(s) && ConnsOk(sha, s) && ReportsOk(s)
  }

  lemma QuietInv(sha: Sha, s: State, s': State)
    requires Inv(sha, s) && Quiet(s, s') && RefsOk(s')
    ensures Inv(sha, s')
  {
    forall d | d in s'.conns
      ensures ConnOk(sha, s'.conns[d], Se(s', d), s'.running)
    {
      if d in s.conns {
        ConnStable(sha, s.conns[d], Se(s, d), Se(s', d), s.running, s'.running);
      }
    }
    forall c
      ensures ReportOk(s', c)
    {
      assert ReportOk(s, c);
    }
  }

  /** A connection's own action as the others see it. */
  ghost predicate Ran(s: State, s': State, c: nat) {
    && c in s.conns && c in s'.conns && s'.conns == s.conns[c := s'.conns[c]]
    && s'.conns[c].sid == s.conns[c].sid && s'.heap == s.heap && s'.running == s.running
    && var ph, ph' := s.conns[c].phase, s'.conns[c].phase;
       && !ph.Done?
       && (if ph.Reporting? then ph' == Done(ph.outcome) && s'.reports == s.reports + [(c, ph.outcome.Saved?)]
           else !ph'.Done? && s'.reports == s.reports)
  }

  lemma RunStep(sha: Sha, s: State, c: nat, fault: bool)
    requires Enabled(s, Run(c, fault))
    ensures Ran(s, Step(sha, s, Run(c, fault)), c)
  {
  }

  lemma ReportsOfAppend(reports: seq<(nat, bool)>, last: (nat, bool), x: nat)
    ensures ReportsOf(reports + [last], x) == ReportsOf(reports, x) + if last.0 == x then [last.1] else []
  {
    assert (reports + [last])[..|reports|] == reports;
  }

  lemma RanReport(s: State, s': State, c: nat, x: nat)
    requires Ran(s, s', c) && ReportOk(s, x)
    ensures ReportOk(s', x)
  {
    var ph := s.conns[c].phase;
    if ph.Reporting? {
      ReportsOfAppend(s.reports, (c, ph.outcome.Saved?), x);
    }
  }

  lemma RanInv(sha: Sha, s: State, s': State, c: nat)
    requires Inv(sha, s) && Ran(s, s', c) && RefsOk(s')
    requires ConnOk(sha, s'.conns[c], Se(s', c), s'.running)
    ensures Inv(sha, s')
  {
    forall x
      ensures ReportOk(s', x)
    {
      assert ReportOk(s, x);
      RanReport(s, s', c, x);
    }
  }

  lemma StepInv(sha: Sha, s: State, a: Action)
    requires Inv(sha, s) && Enabled(s, a)
    ensures Inv(sha, Step(sha, s, a))
  {
    StepRefs(sha, s, a);
    match a
    case Run(c, fault) =>
      RunStep(sha, s, c, fault);
      TurnOk(sha, s.conns[c], Se(s, c), s.disk, s.running, fault);
      RanInv(sha, s, Step(sha, s, a), c);
    case _ =>
      QuietStep(sha, s, a);
      QuietInv(sha, s, Step(sha, s, a));
  }

  lemma {:induction false} RunsInv(sha: Sha, s: State, actions: seq<Action>, t: State)
    requires Inv(sha, s) && Runs(sha, s, actions, t, false)
    ensures Inv(sha, t)
    decreases |actions|
  {
    if actions != [] {
      StepInv(sha, s, actions[0]);
      RunsInv(sha, Step(sha, s, actions[0]), actions[1..], t);
    }
  }

  lemma RunInv(sha: Sha, s: State, actions: seq<Action>, t: State)
    requires Initial(s) && Runs(sha, s, actions, t, false)
    ensures Inv(sha, t)
  {
    assert Inv(sha, s);
    RunsInv(sha, s, actions, t);
  }

  // ---- The results, over every run from the start ----

  /** An upload reports finished exactly once when its thread has ended, with its verdict, and never
      before. */
  lemma FinishedExactlyOnce(sha: Sha, s: State, actions: seq<Action>, t: State, c: nat)
    requires Initial(s) && Runs(sha, s, actions, t, false) && c in t.conns
    ensures ReportsOf(t.reports, c) ==
      if t.conns[c].phase.Done? then [t.conns[c].phase.outcome.Saved?] else []
  {
    RunInv(sha, s, actions, t);
    assert ReportOk(t, c);
  }

  lemma SavedConn(sha: Sha, cn: Conn, se: Session, running: bool)
    requires ConnOk(sha, cn, se, running) && IsSaved(cn.phase)
    ensures Verified(sha, cn, se)
  {
  }

  /** A success report means what it says of the stream, whatever happened meanwhile: it started with
      frames adding up to the announced size, and the announced hash, if any, is theirs. */
  lemma SuccessMeans(sha: Sha, s: State, actions: seq<Action>, t: State, c: nat)
    requires Initial(s) && Runs(sha, s, actions, t, false) && HasSaved(t, c) && t.conns[c].sid in t.heap
    requires t.heap[t.conns[c].sid].size <= UINT64_LIMIT - MAX_CHUNK
    ensures var cn, se := t.conns[c], t.heap[t.conns[c].sid];
      && (exists payloads :: StartsWithFrames(cn.stream, payloads, se.size) && cn.payload == Joined(payloads))
      && (se.sha256 == "" || sha(cn.payload) == se.sha256)
  {
    RunInv(sha, s, actions, t);
    SavedConn(sha, t.conns[c], Se(t, c), t.running);
    UploadCompletesIff(t.conns[c].stream, Se(t, c).size);
  }

  lemma FailedConn(sha: Sha, cn: Conn, se: Session, running: bool)
    requires ConnOk(sha, cn, se, running)
    requires cn.phase.Done? && cn.phase.outcome.Failed?
    ensures FailedOk(sha, cn, se, running, cn.phase.outcome.why)
  {
  }

  /** And a failure report means that something did fail. */
  lemma FailureMeans(sha: Sha, s: State, actions: seq<Action>, t: State, c: nat)
    requires Initial(s) && Runs(sha, s, actions, t, false) && c in t.conns && t.conns[c].sid in t.heap
    requires t.conns[c].phase.Done? && t.conns[c].phase.outcome.Failed?
    requires t.heap[t.conns[c].sid].size <= UINT64_LIMIT - MAX_CHUNK
    ensures var cn, se, why := t.conns[c], t.heap[t.conns[c].sid], t.conns[c].phase.outcome.why;
      var framed := exists payloads :: StartsWithFrames(cn.stream, payloads, se.size);
      && (why == Interrupted ==> se.cancelled || !t.running || !framed)
      && (why == Mismatch || why.RenameFailed? ==> framed)
      && (forall payloads | StartsWithFrames(cn.stream, payloads, se.size) ::
           && (why == Mismatch ==> se.sha256 != "" && sha(Joined(payloads)) != se.sha256)
           && (why.RenameFailed? ==> se.sha256 == "" || sha(Joined(payloads)) == se.sha256))
  {
    RunInv(sha, s, actions, t);
    FailedConn(sha, t.conns[c], Se(t, c), t.running);
    UploadCompletesIff(t.conns[c].stream, t.heap[t.conns[c].sid].size);
  }

  // ---- What of the payload is in the file ----

  /** If the action is this connection's write, the disk has room for it. */
  ghost predicate WriteFits(s: State, a: Action, c: nat)
    requires Enabled(s, a)
  {
    a.Run? && a.c == c && s.conns[c].phase.Body? ==>
      match NextFrame(s.conns[c].rest, MAX_CHUNK)
      case Whole(p, _) => |p| <= s.disk.room
      case _ => true
  }

  /** Each write of this connection found room on the disk when it came. */
  ghost predicate AlwaysFits(sha: Sha, s: State, actions: seq<Action>, c: nat)
    decreases |actions|
  {
    if actions == [] then true else
    && Enabled(s, actions[0]) && WriteFits(s, actions[0], c)
    && AlwaysFits(sha, Step(sha, s, actions[0]), actions[1..], c)
  }

  ghost predicate IsBad(s: State, c: nat) {
    c in s.conns && s.conns[c].bad
  }

  lemma StepBad(sha: Sha, s: State, a: Action, c: nat)
    requires Enabled(s, a)
    ensures IsBad(Step(sha, s, a), c) <==> IsBad(s, c) || !WriteFits(s, a, c)
  {
    if !a.Run? {
      QuietStep(sha, s, a);
    }
  }

  lemma {:induction false} RunsBad(sha: Sha, s: State, actions: seq<Action>, t: State, c: nat)
    requires Runs(sha, s, actions, t, false)
    ensures IsBad(t, c) <==> IsBad(s, c) || !AlwaysFits(sha, s, actions, c)
    decreases |actions|
  {
    if actions != [] {
      StepBad(sha, s, actions[0], c);
      RunsBad(sha, Step(sha, s, actions[0]), actions[1..], t, c);
    }
  }

  /** What an upload has written is the start of its payload, and all of it exactly if each of its
      writes found room. The code does not notice the difference. */
  lemma WrittenIsThePayloadIff(sha: Sha, s: State, actions: seq<Action>, t: State, c: nat)
    requires Initial(s) && Runs(sha, s, actions, t, false) && c in t.conns
    ensures t.conns[c].written <= t.conns[c].payload
    ensures t.conns[c].written == t.conns[c].payload <==> AlwaysFits(sha, s, actions, c)
  {
    RunInv(sha, s, actions, t);
    RunsBad(sha, s, actions, t, c);
  }

  // ---- How many steps an upload takes ----

  /** The actions of one connection in a run. */
  ghost function RunsOf(actions: seq<Action>, c: nat): nat {
    if actions == [] then 0 else
    (if actions[0].Run? && actions[0].c == c then 1 else 0) + RunsOf(actions[1..], c)
  }

  /** Actions an upload may have spent to get here: three for each byte consumed, and its phase. */
  function Spent(cn: Conn): int {
    3 * (|cn.stream| - |cn.rest|) + Rank(cn.phase)
  }

  function Rank(p: Phase): nat {
    match p
    case Opening => 0
    case Guard => 1
    case GuardCancelled => 2
    case Body => 3
    case Closing => 4
    case Checking => 5
    case Probing(k) => 6 + k
    case Renaming(k) => 7 + k
    case Discarding(_) => 8 + Tries(p)
    case Reporting(_) => 9 + Tries(p)
    case Done(_) => 10 + Tries(p)
  }

  lemma TurnSpends(sha: Sha, cn: Conn, se: Session, disk: Disk, running: bool, fault: bool)
    requires !cn.phase.Done?
    ensures Spent(Turn(sha, cn, se, disk, running, fault).conn) > Spent(cn)
  {
  }

  lemma StepSpends(sha: Sha, s: State, a: Action, c: nat)
    requires Enabled(s, a)
    ensures c in s.conns ==>
      && c in Step(sha, s, a).conns
      && Spent(Step(sha, s, a).conns[c]) >= Spent(s.conns[c]) + RunsOf([a], c)
    ensures c !in s.conns ==> RunsOf([a], c) == 0
    ensures c !in s.conns && c in Step(sha, s, a).conns ==> Spent(Step(sha, s, a).conns[c]) == 0
  {
    match a
    case Run(d, fault) => TurnSpends(sha, s.conns[d], s.heap[s.conns[d].sid], s.disk, s.running, fault);
    case _ => QuietStep(sha, s, a);
  }

  lemma {:induction false} RunsSpend(sha: Sha, s: State, actions: seq<Action>, t: State, c: nat)
    requires Runs(sha, s, actions, t, false)
    ensures c in s.conns ==> c in t.conns && Spent(t.conns[c]) >= Spent(s.conns[c]) + RunsOf(actions, c)
    ensures c !in s.conns && c in t.conns ==> Spent(t.conns[c]) >= RunsOf(actions, c)
    decreases |actions|
  {
    if actions != [] {
      StepSpends(sha, s, actions[0], c);
      RunsSpend(sha, Step(sha, s, actions[0]), actions[1..], t, c);
    }
  }

  /** Every action of an upload's thread brings it nearer its report: in every run it has taken at most
      three for each byte of its stream, one for each name found taken, and ten. Until it has reported
      it can always go on; it waits for nobody. */
  lemma EveryTurnCounts(sha: Sha, s: State, actions: seq<Action>, t: State, c: nat)
    requires Initial(s) && Runs(sha, s, actions, t, false) && c in t.conns
    ensures RunsOf(actions, c) <= 3 * |t.conns[c].stream| + Tries(t.conns[c].phase) + 10
    ensures t.conns[c].phase.Done? || Enabled(t, Run(c, false))
  {
    RunsSpend(sha, s, actions, t, c);
    RunInv(sha, s, actions, t);
  }

  // ---- Cancelling in time ----

  /** The session is cancelled and the upload has not passed the check behind the loop. */
  ghost predicate Doomed(s: State, c: nat) {
    && c in s.conns && s.conns[c].sid in s.heap && s.heap[s.conns[c].sid].cancelled
    && match s.conns[c].phase
       case Probing(_) => false
       case Renaming(_) => false
       case Reporting(outcome) => outcome.Failed?
       case Done(outcome) => outcome.Failed?
       case _ => true
  }

  lemma DoomedTurn(sha: Sha, s: State, c: nat, d: nat, fault: bool)
    requires Enabled(s, Run(d, fault)) && Doomed(s, c)
    ensures Doomed(Step(sha, s, Run(d, fault)), c)
  {
  }

  lemma DoomedStep(sha: Sha, s: State, a: Action, c: nat)
    requires Enabled(s, a) && Doomed(s, c)
    ensures Doomed(Step(sha, s, a), c)
  {
    if a.Run? {
      DoomedTurn(sha, s, c, a.c, a.fault);
    }
  }

  /** A cancel that lands before the check rules out success in every continuation. */
  lemma {:induction false} CancelledBeforeTheCheckFails(sha: Sha, s: State, actions: seq<Action>, t: State, c: nat)
    requires Doomed(s, c) && Runs(sha, s, actions, t, false)
    ensures Doomed(t, c) && !HasSaved(t, c)
    decreases |actions|
  {
    if actions != [] {
      DoomedStep(sha, s, actions[0], c);
      CancelledBeforeTheCheckFails(sha, Step(sha, s, actions[0]), actions[1..], t, c);
    }
  }

  // ---- Stopping ----

  /** While stop holds the lock, every session in the table is cancelled or still on its list. */
  ghost predicate StopCovers(s: State) {
    forall id | id in s.table :: s.table[id] in s.heap &&
      match s.lock
      case Stopping(todo) => s.table[id] in todo || s.heap[s.table[id]].cancelled
      case StopRemoving(todo, _) => s.table[id] in todo || s.heap[s.table[id]].cancelled
      case _ => true
  }

  lemma StopCoversStep(sha: Sha, s: State, a: Action)
    requires StopCovers(s) && Enabled(s, a)
    ensures StopCovers(Step(sha, s, a))
  {
  }

  lemma {:induction false} StopCoversRuns(sha: Sha, s: State, actions: seq<Action>, t: State)
    requires StopCovers(s) && Runs(sha, s, actions, t, false)
    ensures StopCovers(t)
    decreases |actions|
  {
    if actions != [] {
      StopCoversStep(sha, s, actions[0]);
      StopCoversRuns(sha, Step(sha, s, actions[0]), actions[1..], t);
    }
  }

  /** When stop empties the table, every upload of a session in it that has not passed the check can
      no longer succeed, in any interleaving. */
  lemma StopDoomsTheTable(sha: Sha, s: State, actions: seq<Action>, t: State, c: nat, id: string)
    requires Initial(s) && Runs(sha, s, actions, t, false) && Enabled(t, StopClear)
    requires c in t.conns && id in t.table && t.table[id] == t.conns[c].sid
    requires !t.conns[c].phase.Probing? && !t.conns[c].phase.Renaming? && !HasSaved(t, c)
    ensures Doomed(t, c)
  {
    StopCoversRuns(sha, s, actions, t);
  }
}
