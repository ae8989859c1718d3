/** Every interleaving of upload connections with cancelTransfer, stop, new registrations and other
    programs. Each shared access of the code - a flag read, a folder operation, a lock section - is
    one action; a connection's phase says what its thread does next. */
module UploadInterleavings {
  import opened Wire
  import opened TransferLoops
  import opened FinalName
  import opened FileTransferServer

  type Sha = seq<byte> -> string

  datatype Why = OpenFailed | Interrupted | Mismatch | RenameFailed(k: nat)

  /** How an upload ends: saved under its k-th candidate name, or given up. */
  datatype Outcome = Saved(k: nat) | Failed(why: Why)

  datatype Phase =
    | Opening              // past the handshake, session held, `.part` not yet opened
    | Guard                // loop guard: about to read m_running
    | GuardCancelled       // loop guard: about to read the session's flag
    | Body                 // about to read one frame and write it
    | Closing              // about to close the `.part` file
    | Checking             // about to test error, flag, size and hash
    | Probing(k: nat)      // about to ask whether the k-th candidate exists
    | Renaming(k: nat)     // the k-th candidate was free when asked
    | Discarding(why: Why) // about to remove the `.part` file
    | Reporting(outcome: Outcome)
    | Done(outcome: Outcome)

  datatype Session = Session(target: Path, size: nat, sha256: string, cancelled: bool)

  /** `payload` is what was received, hashed and counted; `written` is what the disk took of it before
      the output stream went bad. */
  datatype Conn = Conn(sid: nat, phase: Phase, stream: seq<byte>, rest: seq<byte>, payload: seq<byte>,
                       total: nat, progress: seq<nat>, error: bool, written: seq<byte>, bad: bool)

  /** A connection past the handshake, nothing read yet. */
  function Fresh(sid: nat, stream: seq<byte>): Conn {
    Conn(sid, Opening, stream, stream, [], 0, [], false, [], false)
  }

  /** Who holds m_sessionsMutex across several shared accesses. */
  datatype Lock =
    | Free
    | Cancelling(id: string, sid: nat)
    | Stopping(todo: set<nat>)
    | StopRemoving(todo: set<nat>, sid: nat)

  /** `heap` holds every session object ever registered, `table` is m_sessions, `others` what the
      folder held at first and what other programs have added, `reports` the finished callbacks. */
  datatype State = State(disk: Disk, others: Files, running: bool, stopped: bool, heap: map<nat, Session>,
                         table: map<string, nat>, lock: Lock, conns: map<nat, Conn>, reports: seq<(nat, bool)>)

  /** Past the opening and not yet at the report: the `.part` file belongs to this upload. */
  predicate IsLive(p: Phase) {
    !p.Opening? && !p.Reporting? && !p.Done?
  }

  predicate IsOpen(p: Phase) {
    p.Guard? || p.GuardCancelled? || p.Body? || p.Closing?
  }

  predicate IsSaved(p: Phase) {
    (p.Reporting? || p.Done?) && p.outcome.Saved?
  }

  /** How many candidate names the upload has found taken. */
  function Tries(p: Phase): nat {
    match p
    case Probing(k) => k
    case Renaming(k) => k
    case Discarding(RenameFailed(k)) => k
    case Reporting(Failed(RenameFailed(k))) => k
    case Reporting(Saved(k)) => k
    case Done(Failed(RenameFailed(k))) => k
    case Done(Saved(k)) => k
    case _ => 0
  }

  // ---- One action of a connection thread ----

  datatype Turned = Turned(conn: Conn, disk: Disk)

  function Turn(sha: Sha, cn: Conn, se: Session, disk: Disk, running: bool, fault: bool): Turned
    requires !cn.phase.Done?
  {
    var part := PartOf(se.target);
    match cn.phase
    case Opening =>
      if fault then Turned(cn.(phase := Reporting(Failed(OpenFailed))), disk)
      else Turned(cn.(phase := Guard), Truncated(disk, part))
    case Guard =>
      Turned(cn.(phase := if running then GuardCancelled else Closing), disk)
    case GuardCancelled =>
      Turned(cn.(phase := if !se.cancelled && cn.total < se.size then Body else Closing), disk)
    case Body =>
      (match NextFrame(cn.rest, MAX_CHUNK)
       case Whole(p, rest) => Turned(Received(cn, p, rest, disk.room), if cn.bad then disk else Written(disk, part, p))
       case _ => Turned(cn.(phase := Closing, error := true), disk))
    case Closing =>
      Turned(cn.(phase := Checking), disk)
    case Checking =>
      Turned(cn.(phase :=
        if cn.error || se.cancelled || cn.total != se.size then Discarding(Interrupted)
        else if !HashAccepted(sha, se.sha256, cn.payload) then Discarding(Mismatch)
        else Probing(0)), disk)
    case Probing(k) =>
      Turned(cn.(phase := if Candidate(se.target, k) in disk.files then Probing(k + 1) else Renaming(k)), disk)
    case Renaming(k) =>
      if !fault && part in disk.files && Candidate(se.target, k) !in disk.files
      then Turned(cn.(phase := Reporting(Saved(k))), Renamed(disk, part, Candidate(se.target, k)))
      else Turned(cn.(phase := Discarding(RenameFailed(k))), disk)
    case Discarding(why) =>
      Turned(cn.(phase := Reporting(Failed(why))), Removed(disk, part))
    case Reporting(outcome) =>
      Turned(cn.(phase := Done(outcome)), disk)
  }

  /** One good frame: hashed and counted whole, written as far as it fits. */
  function Received(cn: Conn, p: seq<byte>, rest: seq<byte>, room: nat): Conn {
    var total := Advance(cn.total, |p|);
    cn.(phase := Guard, rest := rest, payload := cn.payload + p, total := total, progress := cn.progress + [total],
        written := if cn.bad then cn.written else cn.written + Taken(p, room), bad := cn.bad || |p| > room)
  }

  // ---- Actions of all threads ----

  datatype Action =
    | Register(id: string, sid: nat, session: Session)
    | Accept(c: nat, id: string, stream: seq<byte>)
    | Run(c: nat, fault: bool)
    | CancelFlag(id: string)
    | CancelRemove(removed: bool)
    | StopFlag
    | StopLock
    | StopMark(sid: nat)
    | StopRemove(removed: bool)
    | StopClear
    | OtherCreates(p: Path, data: seq<byte>)
    | RoomChanges(room: nat)

  ghost predicate IsSomePart(s: State, p: Path) {
    exists sid :: sid in s.heap && PartOf(s.heap[sid].target) == p
  }

  /** Some connection still has this `.part` file open, so that removing it may fail. */
  ghost predicate HeldOpen(s: State, part: Path) {
    exists c ::
      && c in s.conns && IsOpen(s.conns[c].phase) && s.conns[c].sid in s.heap
      && PartOf(s.heap[s.conns[c].sid].target) == part
  }

  ghost predicate Enabled(s: State, a: Action) {
    match a
    case Register(id, sid, session) => s.lock.Free? && sid !in s.heap && !session.cancelled
    case Accept(c, id, stream) => s.lock.Free? && c !in s.conns && id in s.table && s.table[id] in s.heap
    case Run(c, _) => c in s.conns && !s.conns[c].phase.Done? && s.conns[c].sid in s.heap
    case CancelFlag(id) => s.lock.Free? && id in s.table && s.table[id] in s.heap
    case CancelRemove(removed) =>
      && s.lock.Cancelling? && s.lock.sid in s.heap
      && (removed || HeldOpen(s, PartOf(s.heap[s.lock.sid].target)))
    case StopFlag => s.running
    case StopLock => s.lock.Free? && !s.running && !s.stopped
    case StopMark(sid) => s.lock.Stopping? && sid in s.lock.todo && sid in s.heap
    case StopRemove(removed) =>
      && s.lock.StopRemoving? && s.lock.sid in s.heap
      && (removed || HeldOpen(s, PartOf(s.heap[s.lock.sid].target)))
    case StopClear => s.lock.Stopping? && s.lock.todo == {}
    case OtherCreates(p, data) => p !in s.disk.files && !IsSomePart(s, p) && |data| <= s.disk.room
    case RoomChanges(_) => true
  }

  function Unlinked(s: State, sid: nat, removed: bool): Disk
    requires sid in s.heap
  {
    if removed then Removed(s.disk, PartOf(s.heap[sid].target)) else s.disk
  }

  ghost function Step(sha: Sha, s: State, a: Action): State
    requires Enabled(s, a)
  {
    match a
    case Register(id, sid, session) => s.(heap := s.heap[sid := session], table := s.table[id := sid])
    case Accept(c, id, stream) => s.(conns := s.conns[c := Fresh(s.table[id], stream)])
    case Run(c, fault) =>
      var cn := s.conns[c];
      var t := Turn(sha, cn, s.heap[cn.sid], s.disk, s.running, fault);
      s.(disk := t.disk, conns := s.conns[c := t.conn],
         reports := if cn.phase.Reporting? then s.reports + [(c, cn.phase.outcome.Saved?)] else s.reports)
    case CancelFlag(id) =>
      var sid := s.table[id];
      s.(heap := s.heap[sid := s.heap[sid].(cancelled := true)], lock := Cancelling(id, sid))
    case CancelRemove(removed) =>
      s.(disk := Unlinked(s, s.lock.sid, removed), table := s.table - {s.lock.id}, lock := Free)
    case StopFlag => s.(running := false)
    case StopLock => s.(lock := Stopping(s.table.Values), stopped := true)
    case StopMark(sid) =>
      s.(heap := s.heap[sid := s.heap[sid].(cancelled := true)], lock := StopRemoving(s.lock.todo - {sid}, sid))
    case StopRemove(removed) => s.(disk := Unlinked(s, s.lock.sid, removed), lock := Stopping(s.lock.todo))
    case StopClear => s.(table := map[], lock := Free)
    case OtherCreates(p, data) =>
      s.(disk := Disk(s.disk.files[p := data], s.disk.room - |data|), others := s.others[p := data])
    case RoomChanges(room) => s.(disk := s.disk.(room := room))
  }

  ghost predicate Initial(s: State) {
    && s.others == s.disk.files && s.running && !s.stopped && s.heap == map[] && s.table == map[]
    && s.lock.Free? && s.conns == map[] && s.reports == []
  }

  // ---- What states refer to ----

  /** Every reference resolves. */
  ghost predicate RefsOk(s: State) {
    && (forall c | c in s.conns :: s.conns[c].sid in s.heap)
    && (forall id | id in s.table :: s.table[id] in s.heap)
    && (match s.lock
        case Free => true
        case Cancelling(id, sid) => sid in s.heap
        case Stopping(todo) => todo <= s.heap.Keys
        case StopRemoving(todo, sid) => todo <= s.heap.Keys && sid in s.heap)
  }

  ghost function Se(s: State, c: nat): Session
    requires RefsOk(s) && c in s.conns
  {
    s.heap[s.conns[c].sid]
  }

  ghost function Part(s: State, c: nat): Path
    requires RefsOk(s) && c in s.conns
  {
    PartOf(Se(s, c).target)
  }

  ghost predicate Live(s: State, c: nat) {
    c in s.conns && IsLive(s.conns[c].phase)
  }

  ghost predicate HasSaved(s: State, c: nat) {
    c in s.conns && IsSaved(s.conns[c].phase)
  }

  /** Where a successful upload put its file. */
  ghost function Final(s: State, c: nat): Path
    requires RefsOk(s) && HasSaved(s, c)
  {
    Candidate(Se(s, c).target, s.conns[c].phase.outcome.k)
  }

  // ---- Runs ----

  /** What the code leaves to its callers and does not enforce. When a session is registered, no name
      that a saved file can get, for it or for an earlier session, is the `.part` path of the other; and
      no upload opens a `.part` file that another one is still working on. */
  ghost predicate Disciplined(s: State, a: Action) {
    match a
    case Register(_, _, session) =>
      forall sid | sid in s.heap ::
        !Clash(session.target, s.heap[sid].target) && !Clash(s.heap[sid].target, session.target)
    case Run(c, _) =>
      c in s.conns && s.conns[c].phase.Opening? && s.conns[c].sid in s.heap ==>
        forall d | Live(s, d) && s.conns[d].sid in s.heap ::
          PartOf(s.heap[s.conns[d].sid].target) != PartOf(s.heap[s.conns[c].sid].target)
    case _ => true
  }

  /** `actions` lead from `s` to `t`; with `disciplined`, every one of them respects the discipline. */
  ghost predicate Runs(sha: Sha, s: State, actions: seq<Action>, t: State, disciplined: bool)
    decreases |actions|
  {
    if actions == [] then s == t else
    && Enabled(s, actions[0]) && (disciplined ==> Disciplined(s, actions[0]))
    && Runs(sha, Step(sha, s, actions[0]), actions[1..], t, disciplined)
  }

  lemma {:induction false} DisciplineIsOptional(sha: Sha, s: State, actions: seq<Action>, t: State)
    requires Runs(sha, s, actions, t, true)
    ensures Runs(sha, s, actions, t, false)
    decreases |actions|
  {
    if actions != [] {
      DisciplineIsOptional(sha, Step(sha, s, actions[0]), actions[1..], t);
    }
  }

  // ---- What other threads can do to an upload ----

  /** What registrations, cancelling, stopping and other programs may do: everything but a
      connection's own action. */
  ghost predicate Quiet(s: State, s': State) {
    && s'.reports == s.reports && (s'.running ==> s.running)
    && (forall c | c in s.conns :: c in s'.conns && s'.conns[c] == s.conns[c])
    && (forall c | c in s'.conns && c !in s.conns ::
          s'.conns[c] == Fresh(s'.conns[c].sid, s'.conns[c].stream))
    && HeapGrows(s, s')
  }

  /** Sessions are only added and cancelled. */
  ghost predicate HeapGrows(s: State, s': State) {
    forall sid | sid in s.heap ::
      && sid in s'.heap
      && s'.heap[sid] == s.heap[sid].(cancelled := s'.heap[sid].cancelled)
      && (s.heap[sid].cancelled ==> s'.heap[sid].cancelled)
  }

  lemma StepHeapGrows(sha: Sha, s: State, a: Action)
    requires Enabled(s, a)
    ensures HeapGrows(s, Step(sha, s, a))
  {
  }

  lemma QuietStep(sha: Sha, s: State, a: Action)
    requires Enabled(s, a) && !a.Run?
    ensures Quiet(s, Step(sha, s, a))
  {
    StepHeapGrows(sha, s, a);
  }

  lemma RunRefs(sha: Sha, s: State, c: nat, fault: bool)
    requires RefsOk(s) && Enabled(s, Run(c, fault))
    ensures RefsOk(Step(sha, s, Run(c, fault)))
  {
  }

  lemma LockRefs(sha: Sha, s: State, a: Action)
    requires RefsOk(s) && Enabled(s, a)
    requires a.CancelFlag? || a.CancelRemove? || a.StopMark? || a.StopRemove?
    ensures RefsOk(Step(sha, s, a))
  {
  }

  lemma StepRefs(sha: Sha, s: State, a: Action)
    requires RefsOk(s) && Enabled(s, a)
    ensures RefsOk(Step(sha, s, a))
  {
    match a
    case Run(c, fault) => RunRefs(sha, s, c, fault);
    case CancelFlag(_) => LockRefs(sha, s, a);
    case CancelRemove(_) => LockRefs(sha, s, a);
    case StopMark(_) => LockRefs(sha, s, a);
    case StopRemove(_) => LockRefs(sha, s, a);
    case _ =>
  }
}
