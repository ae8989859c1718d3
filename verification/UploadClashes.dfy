/** What the code does not enforce and why it matters: on a full disk a saved file is not the payload;
    two uploads can spoil each other's results exactly if their targets are equal or clash. */
module UploadClashes {
  import opened Wire
  import opened TransferLoops
  import opened FinalName
  import opened FileTransferServer
  import opened UploadInterleavings
  import opened UploadReports
  import UploadFolder
  import opened UploadAlone

  // ---- Two uploads ----

  /** Uploads to `a` and `b`, registered and connected, with any streams, sizes and hashes. */
  ghost predicate PairStart(s: State, a: Path, b: Path) {
    && s.others == s.disk.files && s.running && !s.stopped && s.lock.Free? && s.reports == []
    && Pair(s, a, b)
    && !s.heap[0].cancelled && !s.heap[1].cancelled && s.table == map["a" := 0, "b" := 1]
    && s.conns[0] == Fresh(0, s.conns[0].stream) && s.conns[1] == Fresh(1, s.conns[1].stream)
  }

  ghost predicate Pair(s: State, a: Path, b: Path) {
    && s.heap.Keys == {0, 1} && s.heap[0].target == a && s.heap[1].target == b
    && s.conns.Keys == {0, 1} && s.conns[0].sid == 0 && s.conns[1].sid == 1
  }

  /** Nothing more is registered and nobody else connects. */
  ghost predicate NoNewcomers(actions: seq<Action>) {
    if actions == [] then true else !actions[0].Register? && !actions[0].Accept? && NoNewcomers(actions[1..])
  }

  /** The folder contradicts a success report: the file is not there or not what the upload wrote. */
  ghost predicate Spoiled(s: State, c: nat) {
    && HasSaved(s, c) && s.conns[c].sid in s.heap
    && var final := Candidate(s.heap[s.conns[c].sid].target, s.conns[c].phase.outcome.k);
       final !in s.disk.files || s.disk.files[final] != s.conns[c].written
  }

  ghost predicate Reaches(sha: Sha, s: State, t: State) {
    exists actions :: NoNewcomers(actions) && Runs(sha, s, actions, t, false)
  }

  /** Some run of two uploads to `a` and `b`, from some folder, ends with a spoiled success. */
  ghost predicate CanSpoil(sha: Sha, a: Path, b: Path) {
    exists s, t, c :: PairStart(s, a, b) && Reaches(sha, s, t) && Spoiled(t, c)
  }

  /** Every such start is reached by registering the two sessions and accepting their connections. */
  lemma PairStartHappens(sha: Sha, s: State, a: Path, b: Path) returns (s0: State, actions: seq<Action>)
    requires PairStart(s, a, b)
    ensures Initial(s0) && s0.disk == s.disk && Runs(sha, s0, actions, s, false)
  {
    s0 := State(s.disk, s.others, true, false, map[], map[], Free, map[], []);
    var r0, r1 := Register("a", 0, s.heap[0]), Register("b", 1, s.heap[1]);
    var a0, a1 := Accept(0, "a", s.conns[0].stream), Accept(1, "b", s.conns[1].stream);
    actions := [r0, r1, a0, a1];
    var s1 := Step(sha, s0, r0);
    var s2 := Step(sha, s1, r1);
    assert s2.heap == s.heap && s2.table == s.table;
    var s3 := Step(sha, s2, a0);
    assert Step(sha, s3, a1).conns == s.conns;
    assert Step(sha, s3, a1) == s;
    assert Runs(sha, s, [], s, false);
    assert [a1][1..] == [] && Runs(sha, s3, [a1], s, false);
    assert [a0, a1][1..] == [a1] && Runs(sha, s2, [a0, a1], s, false);
    assert [r1, a0, a1][1..] == [a0, a1] && Runs(sha, s1, [r1, a0, a1], s, false);
    assert actions[1..] == [r1, a0, a1];
  }

  // ---- Without a clash nothing is spoiled ----

  lemma PairStays(sha: Sha, s: State, act: Action, a: Path, b: Path)
    requires Pair(s, a, b) && Enabled(s, act) && !act.Register? && !act.Accept?
    ensures Pair(Step(sha, s, act), a, b)
  {
    if act.Run? {
      RunStep(sha, s, act.c, act.fault);
    } else {
      QuietStep(sha, s, act);
      NobodyNew(sha, s, act);
    }
  }

  lemma NobodyNew(sha: Sha, s: State, act: Action)
    requires Enabled(s, act) && !act.Register? && !act.Accept? && !act.Run?
    ensures Step(sha, s, act).heap.Keys == s.heap.Keys && Step(sha, s, act).conns == s.conns
  {
  }

  lemma PairIsDisciplined(s: State, act: Action, a: Path, b: Path)
    requires Pair(s, a, b) && a != b && !act.Register?
    ensures Disciplined(s, act)
  {
    PartsOfDistinctTargets(a, b);
  }

  lemma {:induction false} PairRunsDisciplined(sha: Sha, s: State, actions: seq<Action>, t: State, a: Path, b: Path)
    requires Pair(s, a, b) && a != b && NoNewcomers(actions) && Runs(sha, s, actions, t, false)
    ensures Runs(sha, s, actions, t, true)
    decreases |actions|
  {
    if actions != [] {
      PairIsDisciplined(s, actions[0], a, b);
      PairStays(sha, s, actions[0], a, b);
      PairRunsDisciplined(sha, Step(sha, s, actions[0]), actions[1..], t, a, b);
    }
  }

  lemma PairClashFree(s: State, a: Path, b: Path)
    requires Pair(s, a, b) && !Clash(a, b) && !Clash(b, a)
    ensures UploadFolder.ClashFree(s)
  {
    forall k: nat
      ensures Candidate(a, k) != PartOf(a) && Candidate(b, k) != PartOf(b)
    {
      NoSelfClash(a, k);
      NoSelfClash(b, k);
    }
    assert !Clash(a, a) && !Clash(b, b);
    forall x, y | x in s.heap && y in s.heap
      ensures !Clash(s.heap[x].target, s.heap[y].target)
    {
      assert x in {0, 1} && y in {0, 1};
    }
  }

  ghost predicate NothingOpened(s: State) {
    && RefsOk(s) && s.others == s.disk.files
    && forall c | c in s.conns :: s.conns[c] == Fresh(s.conns[c].sid, s.conns[c].stream)
  }

  lemma PairNothingOpened(s: State, a: Path, b: Path)
    requires PairStart(s, a, b)
    ensures NothingOpened(s)
  {
    PairConns(s.conns, s.heap);
    PairTable(s.table, s.heap);
  }

  lemma PairConns(conns: map<nat, Conn>, heap: map<nat, Session>)
    requires conns.Keys == {0, 1} && heap.Keys == {0, 1}
    requires conns[0] == Fresh(0, conns[0].stream) && conns[1] == Fresh(1, conns[1].stream)
    ensures forall c | c in conns :: conns[c] == Fresh(conns[c].sid, conns[c].stream) && conns[c].sid in heap
  {
  }

  lemma PairTable(table: map<string, nat>, heap: map<nat, Session>)
    requires table == map["a" := 0, "b" := 1] && heap.Keys == {0, 1}
    ensures forall id | id in table :: table[id] in heap
  {
  }

  /** Before any connection has opened its file, only the names matter. */
  lemma BeforeTheOpening(s: State)
    requires NothingOpened(s) && UploadFolder.ClashFree(s)
    ensures UploadFolder.FolderInv(s)
  {
  }

  lemma PairStartInv(s: State, a: Path, b: Path)
    requires PairStart(s, a, b) && !Clash(a, b) && !Clash(b, a)
    ensures UploadFolder.FolderInv(s)
  {
    PairClashFree(s, a, b);
    PairNothingOpened(s, a, b);
    BeforeTheOpening(s);
  }

  lemma NotSpoiled(s: State, c: nat)
    requires UploadFolder.FolderInv(s)
    ensures !Spoiled(s, c)
  {
    if HasSaved(s, c) {
      UploadFolder.SavedHolds(s.conns[c], Se(s, c), s.disk.files);
    }
  }

  lemma NoClashNoSpoil(sha: Sha, a: Path, b: Path, s: State, t: State, c: nat)
    requires a != b && !Clash(a, b) && !Clash(b, a)
    requires PairStart(s, a, b) && Reaches(sha, s, t)
    ensures !Spoiled(t, c)
  {
    var actions :| NoNewcomers(actions) && Runs(sha, s, actions, t, false);
    PairStartInv(s, a, b);
    PairRunsDisciplined(sha, s, actions, t, a, b);
    UploadFolder.RunsInv(sha, s, actions, t);
    NotSpoiled(t, c);
  }

  // ---- Building runs ----

  lemma {:induction false} RunsAppend(sha: Sha, s: State, a: seq<Action>, m: State, b: seq<Action>, t: State)
    requires NoNewcomers(a) && Runs(sha, s, a, m, false)
    requires NoNewcomers(b) && Runs(sha, m, b, t, false)
    ensures NoNewcomers(a + b) && Runs(sha, s, a + b, t, false)
    decreases |a|
  {
    if a == [] {
      assert a + b == b;
    } else {
      assert (a + b)[1..] == a[1..] + b;
      RunsAppend(sha, Step(sha, s, a[0]), a[1..], m, b, t);
    }
  }

  lemma ReachesVia(sha: Sha, s: State, m: State, t: State)
    requires Reaches(sha, s, m) && Reaches(sha, m, t)
    ensures Reaches(sha, s, t)
  {
    var a :| NoNewcomers(a) && Runs(sha, s, a, m, false);
    var b :| NoNewcomers(b) && Runs(sha, m, b, t, false);
    RunsAppend(sha, s, a, m, b, t);
  }

  lemma ReachesStep(sha: Sha, m: State, a: Action, t: State)
    requires Enabled(m, a) && t == Step(sha, m, a) && !a.Register? && !a.Accept?
    ensures Reaches(sha, m, t)
  {
    assert [a][1..] == [];
    assert Runs(sha, t, [a][1..], t, false);
    assert NoNewcomers([a]) && Runs(sha, m, [a], t, false);
  }

  /** `s` after connection `c` has got to `y` on its own. */
  ghost function With(s: State, c: nat, y: Turned): State {
    s.(disk := y.disk, conns := s.conns[c := y.conn])
  }

  /** Actions of one connection without interruption, up to its report, are a run. */
  lemma {:induction false} AloneIsARun(sha: Sha, s: State, c: nat, e: Setting, n: nat)
    requires c in s.conns && s.conns[c].sid in s.heap
    requires e == Setting(sha, s.heap[s.conns[c].sid], s.running, Faults(false, false))
    requires !TurnsOf(e, Turned(s.conns[c], s.disk), n).conn.phase.Done?
    ensures Reaches(sha, s, With(s, c, TurnsOf(e, Turned(s.conns[c], s.disk), n)))
    decreases n
  {
    var x := Turned(s.conns[c], s.disk);
    if n == 0 {
      assert With(s, c, x) == s;
      assert NoNewcomers([]) && Runs(sha, s, [], s, false);
    } else {
      var m, y := With(s, c, Next(e, x)), TurnsOf(e, x, n);
      assert y == TurnsOf(e, Next(e, x), n - 1);
      NextIsAStep(sha, s, c, e);
      AloneIsARun(sha, m, c, e, n - 1);
      assert m.conns[c := y.conn] == s.conns[c := y.conn];
      ReachesVia(sha, s, m, With(s, c, y));
    }
  }

  lemma NextIsAStep(sha: Sha, s: State, c: nat, e: Setting)
    requires c in s.conns && s.conns[c].sid in s.heap
    requires e == Setting(sha, s.heap[s.conns[c].sid], s.running, Faults(false, false))
    requires !s.conns[c].phase.Done? && !Next(e, Turned(s.conns[c], s.disk)).conn.phase.Done?
    ensures var m := With(s, c, Next(e, Turned(s.conns[c], s.disk)));
      Reaches(sha, s, m) && m.conns[c].sid == s.conns[c].sid
  {
    var m := With(s, c, Next(e, Turned(s.conns[c], s.disk)));
    assert Step(sha, s, Run(c, false)) == m;
    ReachesStep(sha, s, Run(c, false), m);
  }

  /** A fresh upload of one announced byte, which its stream delivers. */
  ghost predicate OneByte(s: State, c: nat, b: byte) {
    && c in s.conns && s.conns[c].sid in s.heap && s.running
    && s.conns[c] == Fresh(s.conns[c].sid, Framed([b]))
    && var se := s.heap[s.conns[c].sid]; se.size == 1 && se.sha256 == "" && !se.cancelled
  }

  lemma OneByteCompletes(b: byte)
    ensures var r := Receive(Framed([b]), 0, 1); Complete(r, 1) && r.payload == [b]
  {
    assert Framed([b]) + [] == Framed([b]);
    ReceiveOneFrame([b], [], 0, 1);
  }

  /** Undisturbed, it gets as far as renaming. */
  lemma OneByteToRename(sha: Sha, s: State, c: nat, b: byte) returns (y: Turned, k: nat)
    requires OneByte(s, c, b)
    ensures Reaches(sha, s, With(s, c, y))
    ensures y.conn.phase == Renaming(k) && y.conn.sid == s.conns[c].sid && y.conn.payload == [b]
    ensures var target := s.heap[s.conns[c].sid].target;
      && Wrote(s.disk, PartOf(target), y) && IsFirstFree(y.disk.files, target, k)
  {
    var sid := s.conns[c].sid;
    var e := Setting(sha, s.heap[sid], s.running, Faults(false, false));
    OneByteCompletes(b);
    y, k := ToTheRename(e, sid, Framed([b]), s.disk);
    var n: nat :| TurnsOf(e, Turned(Fresh(sid, Framed([b])), s.disk), n) == y;
    AloneIsARun(sha, s, c, e, n);
  }

  ghost function AfterSave(s: State, c: nat): State
    requires c in s.conns && s.conns[c].sid in s.heap && s.conns[c].phase.Renaming?
    requires PartOf(s.heap[s.conns[c].sid].target) in s.disk.files
  {
    var target, k := s.heap[s.conns[c].sid].target, s.conns[c].phase.k;
    s.(disk := Renamed(s.disk, PartOf(target), Candidate(target, k)),
       conns := s.conns[c := s.conns[c].(phase := Reporting(Saved(k)))])
  }

  lemma SaveStep(sha: Sha, s: State, c: nat)
    requires c in s.conns && s.conns[c].sid in s.heap && s.conns[c].phase.Renaming?
    requires PartOf(s.heap[s.conns[c].sid].target) in s.disk.files
    requires Candidate(s.heap[s.conns[c].sid].target, s.conns[c].phase.k) !in s.disk.files
    ensures Reaches(sha, s, AfterSave(s, c))
  {
    ReachesStep(sha, s, Run(c, false), AfterSave(s, c));
  }

  /** Uploads of the bytes 7 and 9 to `a` and `b`. */
  ghost function SevenAndNine(a: Path, b: Path, disk: Disk): (s: State)
    ensures PairStart(s, a, b) && OneByte(s, 0, 7) && OneByte(s, 1, 9)
  {
    State(disk, disk.files, true, false,
          map[0 := Session(a, 1, "", false), 1 := Session(b, 1, "", false)], map["a" := 0, "b" := 1], Free,
          map[0 := Fresh(0, Framed([7])), 1 := Fresh(1, Framed([9]))], [])
  }

  // ---- What can come between two accesses of one upload ----

  /** A cancel cannot remove a file that is open: then the file stays, and the upload, whose session is
      cancelled, has to remove it itself. */
  lemma OpenFileSurvivesCancel(sha: Sha, s: State, id: string, c: nat) returns (t: State)
    requires s.lock.Free? && id in s.table && s.table[id] in s.heap && c in s.conns
    requires s.conns[c].sid == s.table[id] && IsOpen(s.conns[c].phase)
    ensures Reaches(sha, s, t) && t.disk == s.disk && t.conns == s.conns && t.table == s.table - {id}
    ensures t.lock.Free? && s.table[id] in t.heap && t.heap[s.table[id]].cancelled && Doomed(t, c)
  {
    var m := Step(sha, s, CancelFlag(id));
    assert HeldOpen(m, PartOf(m.heap[s.table[id]].target));
    t := Step(sha, m, CancelRemove(false));
    ReachesStep(sha, s, CancelFlag(id), m);
    ReachesStep(sha, m, CancelRemove(false), t);
    ReachesVia(sha, s, m, t);
  }

  /** Another program can take the name between the question whether it exists and the rename. Then the
      rename fails, the other file stays as it is, and the upload gives up. */
  lemma NameTakenMeanwhile(sha: Sha, s: State, c: nat, k: nat, data: seq<byte>) returns (t: State)
    requires c in s.conns && s.conns[c].sid in s.heap && s.conns[c].phase == Renaming(k) && |data| <= s.disk.room
    requires var final := Candidate(s.heap[s.conns[c].sid].target, k);
      final !in s.disk.files && !IsSomePart(s, final)
    ensures Reaches(sha, s, t) && c in t.conns && t.conns[c].phase == Discarding(RenameFailed(k))
    ensures t.disk.files == s.disk.files[Candidate(s.heap[s.conns[c].sid].target, k) := data]
  {
    var final := Candidate(s.heap[s.conns[c].sid].target, k);
    var m := Step(sha, s, OtherCreates(final, data));
    t := Step(sha, m, Run(c, false));
    ReachesStep(sha, s, OtherCreates(final, data), m);
    ReachesStep(sha, m, Run(c, false), t);
    ReachesVia(sha, s, m, t);
  }

  /** And the disk can fill up between two writes: the next one is lost without a trace in the counter. */
  lemma DiskFillsUpMeanwhile(sha: Sha, s: State, c: nat, p: seq<byte>, rest: seq<byte>) returns (t: State)
    requires c in s.conns && s.conns[c].sid in s.heap && s.conns[c].phase.Body? && !s.conns[c].bad
    requires NextFrame(s.conns[c].rest, MAX_CHUNK) == Whole(p, rest)
    ensures Reaches(sha, s, t) && c in t.conns && t.conns[c].phase.Guard?
    ensures t.conns[c].payload == s.conns[c].payload + p && t.conns[c].written == s.conns[c].written
    ensures t.conns[c].total == Advance(s.conns[c].total, |p|) && t.disk.files == s.disk.files
  {
    var m := Step(sha, s, RoomChanges(0));
    t := Step(sha, m, Run(c, false));
    ReachesStep(sha, s, RoomChanges(0), m);
    ReachesStep(sha, m, Run(c, false), t);
    ReachesVia(sha, s, m, t);
    var part := PartOf(s.heap[s.conns[c].sid].target);
    assert Taken(p, 0) == [] && s.conns[c].written + [] == s.conns[c].written;
    if part in s.disk.files {
      assert s.disk.files[part] + [] == s.disk.files[part];
      assert s.disk.files[part := s.disk.files[part]] == s.disk.files;
    }
  }

  // ---- A full disk ----

  /** On a full disk the upload of the byte 7 is reported saved, and the file is empty. */
  lemma FullDiskSavesLess(sha: Sha, a: Path, b: Path) returns (s: State, t: State)
    ensures PairStart(s, a, b) && Reaches(sha, s, t) && RefsOk(t) && HasSaved(t, 0)
    ensures t.conns[0].payload == [7] && Final(t, 0) in t.disk.files && t.disk.files[Final(t, 0)] == []
  {
    s := SevenAndNine(a, b, Disk(map[], 0));
    var y, k := OneByteToRename(sha, s, 0, 7);
    var m := With(s, 0, y);
    SaveStep(sha, m, 0);
    t := AfterSave(m, 0);
    ReachesVia(sha, s, m, t);
  }

  // ---- Two uploads to one target ----

  /** Both uploads have received, closed and checked their files; but it was one file. The first to
      rename reports success for the bytes of the other. */
  lemma SharedPartFileSpoils(sha: Sha, target: Path) returns (s: State, t: State)
    ensures PairStart(s, target, target) && Reaches(sha, s, t) && Spoiled(t, 0)
    ensures t.conns[0].payload == [7] && t.disk.files == map[target := [9]]
  {
    s := SevenAndNine(target, target, Disk(map[], 1));
    var y0, k0 := OneByteToRename(sha, s, 0, 7);
    var m0 := With(s, 0, y0);
    var y1, k1 := OneByteToRename(sha, m0, 1, 9);
    var m1 := With(m0, 1, y1);
    ReachesVia(sha, s, m0, m1);
    NoSelfClash(target, 0);
    assert Candidate(target, 0) == target;
    assert y1.disk.files == map[PartOf(target) := [9]];
    assert k0 == 0;
    SaveStep(sha, m1, 0);
    t := AfterSave(m1, 0);
    assert t.disk.files == map[target := [9]];
    ReachesVia(sha, s, m1, t);
  }

  // ---- Two uploads whose names clash ----

  function TakenNames(target: Path, k: nat): (files: Files)
    ensures forall p :: p in files <==> exists j: nat :: j < k && p == Candidate(target, j)
  {
    map p | p in Tried(target, k) :: []
  }

  ghost function AfterCancel(s: State, id: string, sid: nat): State
    requires sid in s.heap
  {
    s.(heap := s.heap[sid := s.heap[sid].(cancelled := true)], table := s.table - {id},
       disk := Removed(s.disk, PartOf(s.heap[sid].target)))
  }

  lemma CancelSteps(sha: Sha, s: State, id: string, sid: nat)
    requires s.lock.Free? && id in s.table && s.table[id] == sid && sid in s.heap
    ensures Reaches(sha, s, AfterCancel(s, id, sid))
  {
    var m := s.(heap := s.heap[sid := s.heap[sid].(cancelled := true)], lock := Cancelling(id, sid));
    ReachesStep(sha, s, CancelFlag(id), m);
    ReachesStep(sha, m, CancelRemove(true), AfterCancel(s, id, sid));
    ReachesVia(sha, s, m, AfterCancel(s, id, sid));
  }

  lemma FirstFreeIsUnique(files: Files, target: Path, j: nat, k: nat)
    requires IsFirstFree(files, target, j) && IsFirstFree(files, target, k)
    ensures j == k
  {
  }

  /** Connection `i` uploads to `x`, connection `j` to `y`, and the k-th name for `x` is the `.part` path
      of `y`. The names before it are taken. `j` gets as far as renaming and is cancelled, which frees
      its `.part` path; `i` saves there; `j` takes that file as its own. Both report success: what `i`
      saved is gone, and `j` has the bytes of `i`. */
  lemma ClashSpoils(sha: Sha, s: State, i: nat, j: nat, id: string, k: nat, bi: byte, bj: byte) returns (t: State)
    requires i != j && bi != bj && OneByte(s, i, bi) && OneByte(s, j, bj) && s.conns[i].sid != s.conns[j].sid
    requires s.lock.Free? && id in s.table && s.table[id] == s.conns[j].sid
    requires var x, y := s.heap[s.conns[i].sid].target, s.heap[s.conns[j].sid].target;
      Candidate(x, k) == PartOf(y) && s.disk == Disk(TakenNames(x, k), 1)
    ensures Reaches(sha, s, t) && Spoiled(t, i) && Spoiled(t, j)
  {
    var y1, kj := OneByteToRename(sha, s, j, bj);
    var m1 := With(s, j, y1);
    CancelSteps(sha, m1, id, s.conns[j].sid);
    var m2 := AfterCancel(m1, id, s.conns[j].sid);
    ReachesVia(sha, s, m1, m2);
    CancelRestores(s.disk, y1, s.heap[s.conns[i].sid].target, s.heap[s.conns[j].sid].target, k);
    assert m2.disk == s.disk;
    var y2, ki := OneByteToRename(sha, m2, i, bi);
    var m3 := With(m2, i, y2);
    ReachesVia(sha, s, m2, m3);
    t := TakeOver(sha, m3, i, j, k, ki, kj, y1.disk.files, bi, bj);
    ReachesVia(sha, s, m3, t);
  }

  /** In particular a target named like another upload's `.part` file. */
  lemma PartNamedTargetSpoils(sha: Sha, target: Path) returns (s: State, t: State)
    ensures PairStart(s, target, PartOf(target)) && Reaches(sha, s, t) && Spoiled(t, 0) && Spoiled(t, 1)
  {
    s := SevenAndNine(target, PartOf(target), Disk(TakenNames(PartOf(target), 0), 1));
    assert Candidate(PartOf(target), 0) == PartOf(target);
    t := ClashSpoils(sha, s, 1, 0, "a", 0, 9, 7);
  }

  lemma CancelRestores(disk: Disk, y1: Turned, x: Path, y: Path, k: nat)
    requires Candidate(x, k) == PartOf(y) && disk == Disk(TakenNames(x, k), 1)
    requires Wrote(disk, PartOf(y), y1) && |y1.conn.payload| == 1
    ensures Removed(y1.disk, PartOf(y)) == disk
  {
    TheNameIsFree(x, k);
  }

  lemma TheNameIsFree(x: Path, k: nat)
    ensures Candidate(x, k) !in TakenNames(x, k)
  {
    forall j: nat | j < k
      ensures Candidate(x, j) != Candidate(x, k)
    {
      CandidatesDiffer(x, j, k);
    }
  }

  lemma TakeOver(sha: Sha, m: State, i: nat, j: nat, k: nat, ki: nat, kj: nat, seen: Files, bi: byte, bj: byte)
      returns (t: State)
    requires i != j && bi != bj && {i, j} <= m.conns.Keys && {m.conns[i].sid, m.conns[j].sid} <= m.heap.Keys
    requires m.conns[i].phase == Renaming(ki) && m.conns[i].written == [bi]
    requires m.conns[j].phase == Renaming(kj) && m.conns[j].written == [bj]
    requires var x, y := m.heap[m.conns[i].sid].target, m.heap[m.conns[j].sid].target;
      && Candidate(x, k) == PartOf(y)
      && m.disk.files == TakenNames(x, k)[PartOf(x) := [bi]] && IsFirstFree(m.disk.files, x, ki)
      && seen == TakenNames(x, k)[PartOf(y) := [bj]] && IsFirstFree(seen, y, kj)
    ensures Reaches(sha, m, t) && Spoiled(t, i) && Spoiled(t, j)
  {
    var x, y := m.heap[m.conns[i].sid].target, m.heap[m.conns[j].sid].target;
    SavesAtThePart(m.disk.files, x, y, k, ki, bi);
    SaveStep(sha, m, i);
    var n := AfterSave(m, i);
    NoSelfClash(y, kj);
    SaveStep(sha, n, j);
    t := AfterSave(n, j);
    ReachesVia(sha, m, n, t);
    BothSpoiled(t, i, j, bi, bj);
  }

  /** The first free name for `x` is the `.part` path of `y`. */
  lemma SavesAtThePart(files: Files, x: Path, y: Path, k: nat, ki: nat, b: byte)
    requires Candidate(x, k) == PartOf(y)
    requires files == TakenNames(x, k)[PartOf(x) := [b]] && IsFirstFree(files, x, ki)
    ensures ki == k && (files - {PartOf(x)})[PartOf(y) := [b]] == TakenNames(x, k)[PartOf(y) := [b]]
  {
    TheNameIsFree(x, k);
    NoSelfClash(x, k);
    assert IsFirstFree(files, x, k);
    FirstFreeIsUnique(files, x, k, ki);
    PartIsNotTaken(x, k);
    assert files - {PartOf(x)} == TakenNames(x, k);
  }

  lemma BothSpoiled(t: State, i: nat, j: nat, bi: byte, bj: byte)
    requires bi != bj && HasSaved(t, i) && HasSaved(t, j) && {t.conns[i].sid, t.conns[j].sid} <= t.heap.Keys
    requires t.conns[j].written == [bj]
    requires var x, y := t.heap[t.conns[i].sid].target, t.heap[t.conns[j].sid].target;
      && Candidate(x, t.conns[i].phase.outcome.k) == PartOf(y) && PartOf(y) !in t.disk.files
      && Candidate(y, t.conns[j].phase.outcome.k) in t.disk.files
      && t.disk.files[Candidate(y, t.conns[j].phase.outcome.k)] == [bi]
    ensures Spoiled(t, i) && Spoiled(t, j)
  {
  }

  lemma PartIsNotTaken(x: Path, k: nat)
    ensures PartOf(x) !in TakenNames(x, k)
  {
    forall j: nat | j < k
      ensures Candidate(x, j) != PartOf(x)
    {
      NoSelfClash(x, j);
    }
  }

  /** Main result on what must be kept apart: uploads to two targets can spoil each other's results if and
      only if the targets are equal or some name tried for one is the `.part` path of the other. */
  lemma ClashesSpoilIff(sha: Sha, a: Path, b: Path)
    ensures CanSpoil(sha, a, b) <==> a == b || Clash(a, b) || Clash(b, a)
  {
    if CanSpoil(sha, a, b) && a != b && !Clash(a, b) && !Clash(b, a) {
      var s, t, c :| PairStart(s, a, b) && Reaches(sha, s, t) && Spoiled(t, c);
      NoClashNoSpoil(sha, a, b, s, t, c);
      assert false;
    }
    if a == b {
      var s, t := SharedPartFileSpoils(sha, a);
      assert PairStart(s, a, b) && Reaches(sha, s, t) && Spoiled(t, 0);
    }
    if k: nat :| Candidate(a, k) == PartOf(b) {
      var s := SevenAndNine(a, b, Disk(TakenNames(a, k), 1));
      var t := ClashSpoils(sha, s, 0, 1, "b", k, 7, 9);
      assert PairStart(s, a, b) && Reaches(sha, s, t) && Spoiled(t, 0);
    }
    if k: nat :| Candidate(b, k) == PartOf(a) {
      var s := SevenAndNine(a, b, Disk(TakenNames(b, k), 1));
      var t := ClashSpoils(sha, s, 1, 0, "a", k, 9, 7);
      assert PairStart(s, a, b) && Reaches(sha, s, t) && Spoiled(t, 0);
    }
  }
}
