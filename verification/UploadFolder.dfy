/** What uploads do to the folder, in every disciplined run: no name a saved file can get is the `.part`
    path of a registered session, and no two uploads work on one `.part` file at the same time. */
module UploadFolder {
  import opened Wire
  import opened FinalName
  import opened FileTransferServer
  import opened UploadInterleavings
  import opened UploadReports

  // ---- What holds of one connection and the folder ----

  ghost predicate TriedTaken(target: Path, k: nat, files: Files) {
    forall j: nat | j < k :: Candidate(target, j) in files
  }

  /** While an upload is live its `.part` file, if present, holds what it has written; afterwards its
      final file does. The names it found taken still are. */
  ghost predicate FolderOk(cn: Conn, se: Session, files: Files) {
    var part := PartOf(se.target);
    && (cn.phase.Opening? ==> cn.written == [])
    && (IsLive(cn.phase) && part in files ==> files[part] == cn.written)
    && TriedTaken(se.target, Tries(cn.phase), files)
    && (IsSaved(cn.phase) ==>
         var final := Candidate(se.target, cn.phase.outcome.k);
         final in files && files[final] == cn.written)
  }

  /** Every name a saved file can get for this target is as it was, or newly taken. */
  ghost predicate NamesKept(target: Path, files: Files, files': Files) {
    forall k: nat | Candidate(target, k) in files ::
      Candidate(target, k) in files' && files'[Candidate(target, k)] == files[Candidate(target, k)]
  }

  lemma FolderStable(cn: Conn, se: Session, se': Session, files: Files, files': Files)
    requires FolderOk(cn, se, files) && se'.target == se.target && NamesKept(se.target, files, files')
    requires var part := PartOf(se.target);
      IsLive(cn.phase) && part in files' ==> part in files && files'[part] == files[part]
    ensures FolderOk(cn, se', files')
  {
  }

  /** A connection's own action. */
  lemma TurnFolderOk(sha: Sha, cn: Conn, se: Session, disk: Disk, running: bool, fault: bool)
    requires FolderOk(cn, se, disk.files) && !cn.phase.Done?
    ensures var t := Turn(sha, cn, se, disk, running, fault); FolderOk(t.conn, se, t.disk.files)
  {
    match cn.phase
    case Opening => OpenFolderOk(sha, cn, se, disk, running, fault);
    case Body => BodyFolderOk(sha, cn, se, disk, running, fault);
    case Probing(_) => ProbeFolderOk(sha, cn, se, disk, running, fault);
    case Renaming(_) => RenameFolderOk(sha, cn, se, disk, running, fault);
    case Discarding(_) => DiscardFolderOk(sha, cn, se, disk, running, fault);
    case _ => FlagFolderOk(sha, cn, se, disk, running, fault);
  }

  lemma OpenFolderOk(sha: Sha, cn: Conn, se: Session, disk: Disk, running: bool, fault: bool)
    requires FolderOk(cn, se, disk.files) && cn.phase.Opening?
    ensures var t := Turn(sha, cn, se, disk, running, fault); FolderOk(t.conn, se, t.disk.files)
  {
  }

  lemma BodyFolderOk(sha: Sha, cn: Conn, se: Session, disk: Disk, running: bool, fault: bool)
    requires FolderOk(cn, se, disk.files) && cn.phase.Body?
    ensures var t := Turn(sha, cn, se, disk, running, fault); FolderOk(t.conn, se, t.disk.files)
  {
  }

  lemma ProbeFolderOk(sha: Sha, cn: Conn, se: Session, disk: Disk, running: bool, fault: bool)
    requires FolderOk(cn, se, disk.files) && cn.phase.Probing?
    ensures var t := Turn(sha, cn, se, disk, running, fault); FolderOk(t.conn, se, t.disk.files)
  {
    var k, cn' := cn.phase.k, Turn(sha, cn, se, disk, running, fault).conn;
    if Candidate(se.target, k) in disk.files {
      OneMoreTaken(se.target, k, disk.files);
      assert cn' == cn.(phase := Probing(k + 1));
    } else {
      assert cn' == cn.(phase := Renaming(k));
    }
  }

  lemma OneMoreTaken(target: Path, k: nat, files: Files)
    requires TriedTaken(target, k, files) && Candidate(target, k) in files
    ensures TriedTaken(target, k + 1, files)
  {
  }

  lemma RenameFolderOk(sha: Sha, cn: Conn, se: Session, disk: Disk, running: bool, fault: bool)
    requires FolderOk(cn, se, disk.files) && cn.phase.Renaming?
    ensures var t := Turn(sha, cn, se, disk, running, fault); FolderOk(t.conn, se, t.disk.files)
  {
    TurnKeepsNames(sha, cn, se, disk, running, fault);
  }

  lemma DiscardFolderOk(sha: Sha, cn: Conn, se: Session, disk: Disk, running: bool, fault: bool)
    requires FolderOk(cn, se, disk.files) && cn.phase.Discarding?
    ensures var t := Turn(sha, cn, se, disk, running, fault); FolderOk(t.conn, se, t.disk.files)
  {
    TurnKeepsNames(sha, cn, se, disk, running, fault);
  }

  lemma FlagFolderOk(sha: Sha, cn: Conn, se: Session, disk: Disk, running: bool, fault: bool)
    requires FolderOk(cn, se, disk.files)
    requires cn.phase.Guard? || cn.phase.GuardCancelled? || cn.phase.Closing? || cn.phase.Checking?
          || cn.phase.Reporting?
    ensures var t := Turn(sha, cn, se, disk, running, fault); FolderOk(t.conn, se, t.disk.files)
  {
  }

  lemma TurnKeepsNames(sha: Sha, cn: Conn, se: Session, disk: Disk, running: bool, fault: bool)
    requires !cn.phase.Done?
    ensures NamesKept(se.target, disk.files, Turn(sha, cn, se, disk, running, fault).disk.files)
  {
    forall k: nat
      ensures Candidate(se.target, k) != PartOf(se.target)
    {
      NoSelfClash(se.target, k);
    }
  }

  // ---- What holds of the whole state ----

  /** No saved file of a registered session can get the `.part` path of a registered session. */
  ghost predicate ClashFree(s: State) {
    forall x, y | x in s.heap && y in s.heap :: !Clash(s.heap[x].target, s.heap[y].target)
  }

  ghost predicate FoldersOk(s: State)
    requires RefsOk(s)
  {
    forall c | c in s.conns :: FolderOk(s.conns[c], Se(s, c), s.disk.files)
  }

  ghost predicate PartsApart(s: State)
    requires RefsOk(s)
  {
    forall c, d | Live(s, c) && Live(s, d) && c != d :: Part(s, c) != Part(s, d)
  }

  /** Nobody's file is lost or changed, unless it sits at the `.part` path of a registered session. */
  ghost predicate OthersKept(s: State) {
    forall p | p in s.others && !IsSomePart(s, p) :: p in s.disk.files && s.disk.files[p] == s.others[p]
  }

  /** Besides the files of others, the folder holds exactly the files of successful uploads. */
  ghost predicate FolderExact(s: State)
    requires RefsOk(s)
  {
    && (forall p | p in s.disk.files && !IsSomePart(s, p) && p !in s.others :: IsFinal(s, p))
    && (forall c | HasSaved(s, c) :: Final(s, c) in s.disk.files && Final(s, c) !in s.others)
    && (forall c, d | HasSaved(s, c) && HasSaved(s, d) && c != d :: Final(s, c) != Final(s, d))
  }

  ghost predicate IsFinal(s: State, p: Path)
    requires RefsOk(s)
  {
    exists c :: HasSaved(s, c) && Final(s, c) == p
  }

  /** An upload that opened its `.part` file and has ended. */
  ghost predicate Past(s: State, c: nat) {
    && c in s.conns
    && (s.conns[c].phase.Reporting? || s.conns[c].phase.Done?)
    && s.conns[c].phase.outcome != Failed(OpenFailed)
  }

  /** The `.part` file of an ended upload is gone, unless a later upload is using the path again. */
  ghost predicate PartsGone(s: State)
    requires RefsOk(s)
  {
    forall c | Past(s, c) && Part(s, c) in s.disk.files :: exists d :: Live(s, d) && Part(s, d) == Part(s, c)
  }

  ghost predicate FolderInv(s: State) {
    && RefsOk(s) && ClashFree(s) && FoldersOk(s) && PartsApart(s)
    && OthersKept(s) && FolderExact(s) && PartsGone(s)
  }

  /** Under the naming rule a candidate of a registered target is nobody's `.part` path. */
  lemma CandidateIsNoPartPath(s: State, sid: nat, k: nat)
    requires ClashFree(s) && sid in s.heap
    ensures !IsSomePart(s, Candidate(s.heap[sid].target, k))
  {
    forall y | y in s.heap
      ensures PartOf(s.heap[y].target) != Candidate(s.heap[sid].target, k)
    {
      assert !Clash(s.heap[sid].target, s.heap[y].target);
    }
  }

  // ---- Registrations, cancelling, stopping and other programs keep it ----

  /** What they may do to the folder: remove `.part` paths of registered sessions, and add files of
      others elsewhere. */
  ghost predicate QuietFiles(s: State, s': State) {
    var files, files' := s.disk.files, s'.disk.files;
    && (forall p | p in files && p !in files' :: IsSomePart(s, p))
    && (forall p | p in files && p in files' :: files'[p] == files[p])
    && (forall p | p in files' && p !in files :: p in s'.others && !IsSomePart(s, p))
    && (forall p | p in s.others :: p in s'.others && s'.others[p] == s.others[p])
    && (forall p | p in s'.others && p !in s.others :: p !in files && p in files' && files'[p] == s'.others[p])
  }

  lemma QuietFilesStep(sha: Sha, s: State, a: Action)
    requires RefsOk(s) && OthersKept(s) && Enabled(s, a) && !a.Run?
    ensures QuietFiles(s, Step(sha, s, a))
  {
    match a
    case CancelRemove(_) => assert IsSomePart(s, PartOf(s.heap[s.lock.sid].target));
    case StopRemove(_) => assert IsSomePart(s, PartOf(s.heap[s.lock.sid].target));
    case OtherCreates(p, data) => QuietCreate(sha, s, p, data);
    case _ =>
  }

  lemma QuietCreate(sha: Sha, s: State, p: Path, data: seq<byte>)
    requires OthersKept(s) && Enabled(s, OtherCreates(p, data))
    ensures QuietFiles(s, Step(sha, s, OtherCreates(p, data)))
  {
  }

  lemma SomePartStays(s: State, s': State, p: Path)
    requires HeapGrows(s, s') && IsSomePart(s, p)
    ensures IsSomePart(s', p)
  {
    var sid :| sid in s.heap && PartOf(s.heap[sid].target) == p;
    assert PartOf(s'.heap[sid].target) == p;
  }

  lemma StepClashFree(sha: Sha, s: State, a: Action)
    requires ClashFree(s) && Enabled(s, a) && Disciplined(s, a)
    ensures ClashFree(Step(sha, s, a))
  {
    if a.Register? {
      forall k: nat
        ensures Candidate(a.session.target, k) != PartOf(a.session.target)
      {
        NoSelfClash(a.session.target, k);
      }
      assert !Clash(a.session.target, a.session.target);
    }
  }

  lemma QuietKeepsNames(s: State, s': State, sid: nat)
    requires ClashFree(s) && QuietFiles(s, s') && sid in s.heap
    ensures NamesKept(s.heap[sid].target, s.disk.files, s'.disk.files)
  {
    forall k: nat
      ensures !IsSomePart(s, Candidate(s.heap[sid].target, k))
    {
      CandidateIsNoPartPath(s, sid, k);
    }
  }

  lemma QuietFolders(s: State, s': State)
    requires RefsOk(s) && RefsOk(s') && ClashFree(s) && Quiet(s, s') && QuietFiles(s, s') && FoldersOk(s)
    ensures FoldersOk(s')
  {
    forall d | d in s'.conns
      ensures FolderOk(s'.conns[d], Se(s', d), s'.disk.files)
    {
      if d in s.conns {
        assert IsSomePart(s, Part(s, d));
        QuietKeepsNames(s, s', s.conns[d].sid);
        FolderStable(s.conns[d], Se(s, d), Se(s', d), s.disk.files, s'.disk.files);
      }
    }
  }

  lemma QuietPartsApart(s: State, s': State)
    requires RefsOk(s) && RefsOk(s') && Quiet(s, s') && PartsApart(s)
    ensures PartsApart(s')
  {
    forall c, d | Live(s', c) && Live(s', d) && c != d
      ensures Part(s', c) != Part(s', d)
    {
      assert Live(s, c) && Live(s, d);
    }
  }

  lemma QuietOthers(s: State, s': State)
    requires Quiet(s, s') && QuietFiles(s, s') && OthersKept(s)
    ensures OthersKept(s')
  {
    forall p | p in s'.others && !IsSomePart(s', p)
      ensures p in s'.disk.files && s'.disk.files[p] == s'.others[p]
    {
      if IsSomePart(s, p) {
        SomePartStays(s, s', p);
      }
    }
  }

  lemma QuietFolder(s: State, s': State)
    requires RefsOk(s) && RefsOk(s') && ClashFree(s) && Quiet(s, s') && QuietFiles(s, s') && FolderExact(s)
    ensures FolderExact(s')
  {
    forall c | HasSaved(s', c)
      ensures HasSaved(s, c) && Final(s', c) == Final(s, c)
      ensures Final(s', c) in s'.disk.files && Final(s', c) !in s'.others
    {
      CandidateIsNoPartPath(s, s.conns[c].sid, s.conns[c].phase.outcome.k);
    }
    forall p | p in s'.disk.files && !IsSomePart(s', p) && p !in s'.others
      ensures IsFinal(s', p)
    {
      if IsSomePart(s, p) {
        SomePartStays(s, s', p);
      }
      var c :| HasSaved(s, c) && Final(s, c) == p;
      assert HasSaved(s', c) && Final(s', c) == p;
    }
  }

  lemma QuietPartsGone(s: State, s': State)
    requires RefsOk(s) && RefsOk(s') && Quiet(s, s') && QuietFiles(s, s') && PartsGone(s)
    ensures PartsGone(s')
  {
    forall c | Past(s', c) && Part(s', c) in s'.disk.files
      ensures exists d :: Live(s', d) && Part(s', d) == Part(s', c)
    {
      assert IsSomePart(s, Part(s, c));
      assert Past(s, c) && Part(s, c) in s.disk.files;
      var d :| Live(s, d) && Part(s, d) == Part(s, c);
      assert Live(s', d) && Part(s', d) == Part(s', c);
    }
  }

  lemma QuietInv(sha: Sha, s: State, a: Action)
    requires FolderInv(s) && Enabled(s, a) && Disciplined(s, a) && !a.Run?
    ensures FolderInv(Step(sha, s, a))
  {
    var s' := Step(sha, s, a);
    StepRefs(sha, s, a);
    StepClashFree(sha, s, a);
    QuietStep(sha, s, a);
    QuietFilesStep(sha, s, a);
    QuietFolders(s, s');
    QuietPartsApart(s, s');
    QuietOthers(s, s');
    QuietFolder(s, s');
    QuietPartsGone(s, s');
  }

  // ---- A connection's own action keeps it ----

  /** What a connection's own action does to its own record and to the folder. */
  ghost predicate OwnTurn(cn: Conn, cn': Conn, se: Session, files: Files, files': Files) {
    var part := PartOf(se.target);
    && cn'.sid == cn.sid
    && (IsLive(cn'.phase) ==> !cn.phase.Reporting?)
    && (IsLive(cn.phase) && !IsLive(cn'.phase) ==> part !in files')
    && (cn.phase.Reporting? ==> files' == files && cn'.phase == Done(cn.phase.outcome))
    && (cn.phase.Opening? && !IsLive(cn'.phase) ==> files' == files && cn'.phase == Reporting(Failed(OpenFailed)))
    && (cn'.phase.Done? ==> cn.phase.Reporting?)
    && (cn'.phase.Reporting? && cn'.phase.outcome.Saved? ==>
         var final := Candidate(se.target, cn'.phase.outcome.k);
         cn.phase.Renaming? && final !in files && final in files')
    && (part in files' && part !in files ==> IsLive(cn'.phase))
    && (forall p | p in files && p != part :: p in files' && files'[p] == files[p])
    && (forall p | p in files' && p !in files && p != part ::
          cn'.phase.Reporting? && cn'.phase.outcome.Saved? && p == Candidate(se.target, cn'.phase.outcome.k))
  }

  lemma TurnIsOwn(sha: Sha, cn: Conn, se: Session, disk: Disk, running: bool, fault: bool)
    requires !cn.phase.Done?
    ensures var t := Turn(sha, cn, se, disk, running, fault);
      OwnTurn(cn, t.conn, se, disk.files, t.disk.files)
  {
    if cn.phase.Renaming? {
      NoSelfClash(se.target, cn.phase.k);
    }
  }

  /** The whole state around one connection's action. */
  ghost predicate Moved(s: State, s': State, c: nat)
    requires RefsOk(s)
  {
    && c in s.conns && c in s'.conns && s'.conns == s.conns[c := s'.conns[c]]
    && s'.heap == s.heap && s'.others == s.others
    && !s.conns[c].phase.Done?
    && OwnTurn(s.conns[c], s'.conns[c], Se(s, c), s.disk.files, s'.disk.files)
    && (s.conns[c].phase.Opening? ==> forall d | Live(s, d) :: Part(s, d) != Part(s, c))
  }

  lemma RunMoves(sha: Sha, s: State, c: nat, fault: bool)
    requires RefsOk(s) && Enabled(s, Run(c, fault)) && Disciplined(s, Run(c, fault))
    ensures Moved(s, Step(sha, s, Run(c, fault)), c)
  {
    TurnIsOwn(sha, s.conns[c], Se(s, c), s.disk, s.running, fault);
  }

  lemma MovedKeepsNames(s: State, s': State, c: nat, sid: nat)
    requires RefsOk(s) && ClashFree(s) && Moved(s, s', c) && sid in s.heap
    ensures NamesKept(s.heap[sid].target, s.disk.files, s'.disk.files)
  {
    forall k: nat
      ensures Candidate(s.heap[sid].target, k) != Part(s, c)
    {
      CandidateIsNoPartPath(s, sid, k);
      assert IsSomePart(s, Part(s, c));
    }
  }

  lemma MovedAddsNoPart(s: State, s': State, c: nat, p: Path)
    requires RefsOk(s) && ClashFree(s) && Moved(s, s', c) && IsSomePart(s, p) && p != Part(s, c)
    ensures p in s'.disk.files ==> p in s.disk.files
  {
    var ph := s'.conns[c].phase;
    if ph.Reporting? && ph.outcome.Saved? {
      CandidateIsNoPartPath(s, s.conns[c].sid, ph.outcome.k);
    }
  }

  lemma MovedSeparate(s: State, s': State, c: nat, d: nat)
    requires RefsOk(s) && PartsApart(s) && Moved(s, s', c) && Live(s, d) && d != c
    ensures Part(s, d) != Part(s, c) || s.conns[c].phase.Reporting?
  {
  }

  lemma MovedFolder(s: State, s': State, c: nat, d: nat)
    requires RefsOk(s) && ClashFree(s) && PartsApart(s) && FoldersOk(s) && Moved(s, s', c)
    requires d in s.conns && d != c
    ensures FolderOk(s.conns[d], Se(s, d), s'.disk.files)
  {
    MovedKeepsNames(s, s', c, s.conns[d].sid);
    if Live(s, d) {
      MovedSeparate(s, s', c, d);
      assert IsSomePart(s, Part(s, d));
      if !s.conns[c].phase.Reporting? {
        MovedAddsNoPart(s, s', c, Part(s, d));
      }
    }
    FolderStable(s.conns[d], Se(s, d), Se(s, d), s.disk.files, s'.disk.files);
  }

  lemma MovedFolders(s: State, s': State, c: nat)
    requires RefsOk(s) && RefsOk(s') && ClashFree(s) && PartsApart(s) && FoldersOk(s) && Moved(s, s', c)
    requires FolderOk(s'.conns[c], Se(s', c), s'.disk.files)
    ensures FoldersOk(s')
  {
    forall d | d in s'.conns
      ensures FolderOk(s'.conns[d], Se(s', d), s'.disk.files)
    {
      if d != c {
        MovedFolder(s, s', c, d);
      }
    }
  }

  lemma MovedPartsApart(s: State, s': State, c: nat)
    requires RefsOk(s) && RefsOk(s') && PartsApart(s) && Moved(s, s', c)
    ensures PartsApart(s')
  {
    forall x, y | Live(s', x) && Live(s', y) && x != y
      ensures Part(s', x) != Part(s', y)
    {
      if x == c {
        MovedSeparate(s, s', c, y);
      } else if y == c {
        MovedSeparate(s, s', c, x);
      } else {
        assert Live(s, x) && Live(s, y);
      }
    }
  }

  lemma MovedOthers(s: State, s': State, c: nat)
    requires RefsOk(s) && Moved(s, s', c) && OthersKept(s)
    ensures OthersKept(s')
  {
    forall p | p in s'.others && !IsSomePart(s', p)
      ensures p in s'.disk.files && s'.disk.files[p] == s'.others[p]
    {
      assert IsSomePart(s', p) <==> IsSomePart(s, p);
      assert p != PartOf(s'.heap[s.conns[c].sid].target);
    }
  }

  lemma MovedFinal(s: State, s': State, c: nat, x: nat)
    requires RefsOk(s) && RefsOk(s') && ClashFree(s) && Moved(s, s', c)
    requires OthersKept(s) && FolderExact(s) && HasSaved(s', x)
    ensures Final(s', x) in s'.disk.files && Final(s', x) !in s'.others
    ensures HasSaved(s, x) ==> Final(s', x) == Final(s, x) && Final(s, x) in s.disk.files
    ensures !HasSaved(s, x) ==> x == c && Final(s', x) !in s.disk.files
  {
    CandidateIsNoPartPath(s, s'.conns[x].sid, s'.conns[x].phase.outcome.k);
    if HasSaved(s, x) {
      MovedKeepsNames(s, s', c, s.conns[x].sid);
    }
  }

  lemma MovedOrigin(s: State, s': State, c: nat, p: Path)
    requires RefsOk(s) && RefsOk(s') && Moved(s, s', c) && FolderExact(s)
    requires p in s'.disk.files && !IsSomePart(s', p) && p !in s'.others
    ensures IsFinal(s', p)
  {
    assert IsSomePart(s', Part(s', c)) && (IsSomePart(s, p) <==> IsSomePart(s', p));
    if p in s.disk.files {
      var x :| HasSaved(s, x) && Final(s, x) == p;
      assert HasSaved(s', x) && Final(s', x) == p;
    } else {
      assert HasSaved(s', c) && Final(s', c) == p;
    }
  }

  lemma MovedFolderExact(s: State, s': State, c: nat)
    requires RefsOk(s) && RefsOk(s') && ClashFree(s) && Moved(s, s', c) && OthersKept(s) && FolderExact(s)
    ensures FolderExact(s')
  {
    forall x | HasSaved(s', x)
      ensures Final(s', x) in s'.disk.files && Final(s', x) !in s'.others
    {
      MovedFinal(s, s', c, x);
    }
    forall x, y | HasSaved(s', x) && HasSaved(s', y) && x != y
      ensures Final(s', x) != Final(s', y)
    {
      MovedFinal(s, s', c, x);
      MovedFinal(s, s', c, y);
    }
    forall p | p in s'.disk.files && !IsSomePart(s', p) && p !in s'.others
      ensures IsFinal(s', p)
    {
      MovedOrigin(s, s', c, p);
    }
  }

  lemma MovedWasThere(s: State, s': State, c: nat, x: nat)
    requires RefsOk(s) && RefsOk(s') && ClashFree(s) && Moved(s, s', c)
    requires Past(s', x) && Part(s', x) in s'.disk.files
    requires !(Live(s', c) && Part(s', c) == Part(s', x))
    ensures Past(s, x) && Part(s, x) == Part(s', x) && Part(s, x) in s.disk.files
  {
    assert IsSomePart(s, Part(s, x));
    if Part(s, x) != Part(s, c) {
      MovedAddsNoPart(s, s', c, Part(s, x));
    }
  }

  lemma MovedPartGone(s: State, s': State, c: nat, x: nat)
    requires RefsOk(s) && RefsOk(s') && ClashFree(s) && Moved(s, s', c) && PartsGone(s)
    requires Past(s', x) && Part(s', x) in s'.disk.files
    requires !(Live(s', c) && Part(s', c) == Part(s', x))
    ensures exists d :: Live(s', d) && Part(s', d) == Part(s', x)
  {
    MovedWasThere(s, s', c, x);
    var d :| Live(s, d) && Part(s, d) == Part(s, x);
    assert Live(s', d) && Part(s', d) == Part(s', x);
  }

  lemma MovedPartsGone(s: State, s': State, c: nat)
    requires RefsOk(s) && RefsOk(s') && ClashFree(s) && Moved(s, s', c) && PartsGone(s)
    ensures PartsGone(s')
  {
    forall x | Past(s', x) && Part(s', x) in s'.disk.files
      ensures exists d :: Live(s', d) && Part(s', d) == Part(s', x)
    {
      if !(Live(s', c) && Part(s', c) == Part(s', x)) {
        MovedPartGone(s, s', c, x);
      }
    }
  }

  lemma RunInv(sha: Sha, s: State, c: nat, fault: bool)
    requires FolderInv(s) && Enabled(s, Run(c, fault)) && Disciplined(s, Run(c, fault))
    ensures FolderInv(Step(sha, s, Run(c, fault)))
  {
    var s' := Step(sha, s, Run(c, fault));
    StepRefs(sha, s, Run(c, fault));
    StepClashFree(sha, s, Run(c, fault));
    RunMoves(sha, s, c, fault);
    TurnFolderOk(sha, s.conns[c], Se(s, c), s.disk, s.running, fault);
    MovedFolders(s, s', c);
    MovedPartsApart(s, s', c);
    MovedOthers(s, s', c);
    MovedFolderExact(s, s', c);
    MovedPartsGone(s, s', c);
  }

  /** Every action that respects the discipline keeps the whole account of the folder. */
  lemma StepInv(sha: Sha, s: State, a: Action)
    requires FolderInv(s) && Enabled(s, a) && Disciplined(s, a)
    ensures FolderInv(Step(sha, s, a))
  {
    match a
    case Run(c, fault) => RunInv(sha, s, c, fault);
    case _ => QuietInv(sha, s, a);
  }

  /** Whatever others put into the folder stays on record, unchanged. */
  ghost predicate Extends(before: Files, after: Files) {
    forall p | p in before :: p in after && after[p] == before[p]
  }

  lemma StepOthers(sha: Sha, s: State, a: Action)
    requires FolderInv(s) && Enabled(s, a)
    ensures Extends(s.others, Step(sha, s, a).others)
  {
    if !a.Run? {
      QuietFilesStep(sha, s, a);
    }
  }

  lemma {:induction false} RunsInv(sha: Sha, s: State, actions: seq<Action>, t: State)
    requires FolderInv(s) && Runs(sha, s, actions, t, true)
    ensures FolderInv(t) && Extends(s.others, t.others)
    decreases |actions|
  {
    if actions != [] {
      StepInv(sha, s, actions[0]);
      StepOthers(sha, s, actions[0]);
      RunsInv(sha, Step(sha, s, actions[0]), actions[1..], t);
    }
  }

  lemma FromTheStart(sha: Sha, s: State, actions: seq<Action>, t: State)
    requires Initial(s) && Runs(sha, s, actions, t, true)
    ensures FolderInv(t) && Extends(s.disk.files, t.others)
    ensures Runs(sha, s, actions, t, false)
  {
    assert FolderInv(s);
    RunsInv(sha, s, actions, t);
    DisciplineIsOptional(sha, s, actions, t);
  }

  // ---- The results, over every disciplined run from the start ----

  /** The folder, at any moment: leaving the `.part` paths of registered sessions aside, it holds exactly
      the files of others and one file for each successful upload, and nobody's file has changed. */
  lemma FolderAccount(sha: Sha, s: State, actions: seq<Action>, t: State)
    requires Initial(s) && Runs(sha, s, actions, t, true)
    ensures RefsOk(t)
    ensures forall p: Path | !IsSomePart(t, p) :: p in t.disk.files <==> p in t.others || IsFinal(t, p)
    ensures Extends(s.disk.files, t.others)
    ensures forall p | p in t.others && !IsSomePart(t, p) :: t.disk.files[p] == t.others[p]
  {
    FromTheStart(sha, s, actions, t);
    forall p: Path | !IsSomePart(t, p) && IsFinal(t, p)
      ensures p in t.disk.files
    {
      var c :| HasSaved(t, c) && Final(t, c) == p;
    }
  }

  /** The file of a successful upload: a path of its own that was nobody's, the least candidate name
      that was free. It holds what the upload has written, which is all that it received if and only
      if the disk had room for each of its writes. */
  lemma SavedFile(sha: Sha, s: State, actions: seq<Action>, t: State, c: nat)
    requires Initial(s) && Runs(sha, s, actions, t, true) && HasSaved(t, c)
    ensures RefsOk(t) && Final(t, c) in t.disk.files && Final(t, c) !in t.others && !IsSomePart(t, Final(t, c))
    ensures forall d | HasSaved(t, d) && d != c :: Final(t, d) != Final(t, c)
    ensures TriedTaken(Se(t, c).target, t.conns[c].phase.outcome.k, t.disk.files)
    ensures t.disk.files[Final(t, c)] <= t.conns[c].payload
    ensures t.disk.files[Final(t, c)] == t.conns[c].payload <==> AlwaysFits(sha, s, actions, c)
  {
    FromTheStart(sha, s, actions, t);
    CandidateIsNoPartPath(t, t.conns[c].sid, t.conns[c].phase.outcome.k);
    SavedHolds(t.conns[c], Se(t, c), t.disk.files);
    WrittenIsThePayloadIff(sha, s, actions, t, c);
  }

  lemma SavedHolds(cn: Conn, se: Session, files: Files)
    requires FolderOk(cn, se, files) && IsSaved(cn.phase)
    ensures TriedTaken(se.target, cn.phase.outcome.k, files)
    ensures files[Candidate(se.target, cn.phase.outcome.k)] == cn.written
  {
  }

  /** Once an upload that opened its `.part` file has ended, that file is gone, unless a later upload
      has opened the same path again. */
  lemma PartFileGone(sha: Sha, s: State, actions: seq<Action>, t: State, c: nat)
    requires Initial(s) && Runs(sha, s, actions, t, true) && Past(t, c) && RefsOk(t)
    requires forall d | Live(t, d) :: Part(t, d) != Part(t, c)
    ensures Part(t, c) !in t.disk.files
  {
    FromTheStart(sha, s, actions, t);
  }

  /** An upload does end: its thread takes at most three actions for each byte of its stream, one for
      each file in the folder, and ten; and until it has reported it can always take the next one. */
  lemma EveryUploadEnds(sha: Sha, s: State, actions: seq<Action>, t: State, c: nat)
    requires Initial(s) && Runs(sha, s, actions, t, true) && c in t.conns
    ensures RunsOf(actions, c) <= 3 * |t.conns[c].stream| + |t.disk.files| + 10
    ensures t.conns[c].phase.Done? || Enabled(t, Run(c, false))
  {
    FromTheStart(sha, s, actions, t);
    EveryTurnCounts(sha, s, actions, t, c);
    assert FolderOk(t.conns[c], Se(t, c), t.disk.files);
    TakenCandidatesAreBounded(t.disk.files, Se(t, c).target, Tries(t.conns[c].phase));
  }
}
