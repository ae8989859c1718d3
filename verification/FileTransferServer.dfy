/** The file transfer server as one connection sees it: the session table, the handshake, the upload
    receiver and the download sender. Interference by other threads is the subject of
    UploadInterleavings. */
module FileTransferServer {
  import opened Wire
  import opened TransferLoops
  import opened FinalName
  import opened Handshake

  datatype Direction = MobileUploadToPc | DesktopDownloadToMobile

  datatype Report = Report(transferId: string, success: bool, error: string)

  /** Faults of the file system that the code tests for. */
  datatype Faults = Faults(openFails: bool, renameFails: bool)

  class Folder {
    var disk: Disk

    constructor (disk: Disk)
      ensures this.disk == disk
    {
      this.disk := disk;
    }

    method Truncate(p: Path)
      modifies this
      ensures disk == Truncated(old(disk), p)
    {
      disk := Truncated(disk, p);
    }

    /** `ofstream::write` on an open file: the stream goes bad when the data does not fit. */
    method Write(p: Path, data: seq<byte>) returns (ok: bool)
      requires p in disk.files
      modifies this
      ensures disk == Written(old(disk), p, data)
      ensures ok <==> |data| <= old(disk).room
    {
      ok := |data| <= disk.room;
      disk := Written(disk, p, data);
    }

    method Remove(p: Path)
      modifies this
      ensures disk == Removed(old(disk), p)
    {
      disk := Removed(disk, p);
    }

    /** `QFile::rename`: refuses a missing source and an existing destination. */
    method Rename(from: Path, to: Path, fails: bool) returns (ok: bool)
      modifies this
      ensures ok <==> !fails && from in old(disk).files && to !in old(disk).files
      ensures disk == if ok then Renamed(old(disk), from, to) else old(disk)
    {
      ok := !fails && from in disk.files && to !in disk.files;
      if ok {
        disk := Renamed(disk, from, to);
      }
    }
  }

  class ActiveTransferSession {
    const transferId: string
    const tokenBytes: seq<byte>
    const target: Path
    const expectedSize: nat
    const expectedSha256: string
    const direction: Direction
    var bytesTransferred: nat
    var cancelled: bool

    constructor (transferId: string, tokenBytes: seq<byte>, target: Path, expectedSize: nat,
                 expectedSha256: string, direction: Direction)
      ensures this.transferId == transferId && this.tokenBytes == tokenBytes && this.target == target
      ensures this.expectedSize == expectedSize && this.expectedSha256 == expectedSha256
      ensures this.direction == direction && bytesTransferred == 0 && !cancelled
    {
      this.transferId, this.tokenBytes, this.target := transferId, tokenBytes, target;
      this.expectedSize, this.expectedSha256, this.direction := expectedSize, expectedSha256, direction;
      bytesTransferred, cancelled := 0, false;
    }

    function Offer(): Announced {
      Announced(target, expectedSize, expectedSha256)
    }
  }

  // ---- What an undisturbed upload does ----

  /** While an upload is at work the disk is as before, but for its `.part` file. */
  ghost predicate Holds(d: Disk, before: Disk, part: Path, content: seq<byte>) {
    && d.files == before.files[part := content]
    && |content| <= RoomFor(before, part)
    && d.room == RoomFor(before, part) - |content|
  }

  lemma OpenedAndWritten(before: Disk, part: Path, payload: seq<byte>)
    ensures Holds(Written(Truncated(before, part), part, payload), before, part, Taken(payload, RoomFor(before, part)))
  {
    var content := Taken(payload, RoomFor(before, part));
    assert [] + content == content;
    assert before.files[part := []][part := content] == before.files[part := content];
  }

  /** Writes in a row leave what one write of everything would have left; after one that did not fit
      nothing more is written. */
  lemma WrittenTwice(d: Disk, part: Path, first: seq<byte>, second: seq<byte>)
    requires part in d.files
    ensures Written(d, part, first + second) ==
      if |first| <= d.room then Written(Written(d, part, first), part, second) else Written(d, part, first)
  {
    var at, room := d.files[part], d.room;
    if |first| > room {
      CutShort(first, second, room);
    } else {
      assert Taken(first + second, room) == first + Taken(second, room - |first|);
      assert at + (first + Taken(second, room - |first|)) == at + first + Taken(second, room - |first|);
    }
  }

  predicate HashAccepted(sha256: seq<byte> -> string, expected: string, payload: seq<byte>) {
    expected == "" || sha256(payload) == expected
  }

  /** The loop is entered only while the server runs and the session is not cancelled. */
  function Reached(go: bool, stream: seq<byte>, size: nat): Reception {
    if go then Receive(stream, 0, size) else Reception(false, 0, [], [])
  }

  /** What an upload was announced as. */
  datatype Announced = Announced(target: Path, size: nat, sha256: string)

  /** Everything an upload changes: on success the first free name holds exactly `content` and the
      `.part` file is gone; on failure the folder only lost the `.part` file. */
  ghost predicate UploadOutcome(before: Files, after: Files, target: Path, success: bool, content: seq<byte>) {
    var part := PartOf(target);
    if success then
      exists k: nat ::
        && k <= |before| + 1
        && IsFirstFree(before[part := content], target, k)
        && after == (before - {part})[Candidate(target, k) := content]
    else
      after == before - {part}
  }

  /** The whole account of one upload connection past the handshake: when success is reported, and
      what the disk holds afterwards. The code never looks whether its writes have failed: the file
      gets as much of the payload as the disk takes, and the verdict does not depend on it. */
  ghost predicate UploadReported(sha256: seq<byte> -> string, a: Announced, running: bool, cancelled: bool,
                                 faults: Faults, stream: seq<byte>, before: Disk, after: Disk, success: bool) {
    var r := Reached(running && !cancelled, stream, a.size);
    var content := Taken(r.payload, RoomFor(before, PartOf(a.target)));
    && (success <==>
         && !faults.openFails && !faults.renameFails && !cancelled
         && Complete(r, a.size)
         && (a.sha256 == "" || sha256(r.payload) == a.sha256))
    && (if faults.openFails then after == before else
         && UploadOutcome(before.files, after.files, a.target, success, content)
         && after.room == RoomFor(before, PartOf(a.target)) - if success then |content| else 0)
  }

  /** Main result for an undisturbed upload connection: it reports success exactly when the stream starts
      with legal frames that add up to the announced size and the announced hash, if any, is theirs. */
  lemma UndisturbedUpload(sha256: seq<byte> -> string, a: Announced, stream: seq<byte>,
                          before: Disk, after: Disk, success: bool)
    requires a.size <= UINT64_LIMIT - MAX_CHUNK
    requires UploadReported(sha256, a, true, false, Faults(false, false), stream, before, after, success)
    ensures success <==>
      exists payloads ::
        && StartsWithFrames(stream, payloads, a.size)
        && (a.sha256 == "" || sha256(Joined(payloads)) == a.sha256)
    ensures forall payloads | success && StartsWithFrames(stream, payloads, a.size) ::
      UploadOutcome(before.files, after.files, a.target, true,
                    Taken(Joined(payloads), RoomFor(before, PartOf(a.target))))
  {
    UploadCompletesIff(stream, a.size);
  }

  lemma OutcomeFinal(before: Files, after: Files, target: Path, content: seq<byte>) returns (final: Path)
    requires UploadOutcome(before, after, target, true, content)
    ensures final !in before && final in after && after[final] == content
  {
    var k: nat :|
      && k <= |before| + 1
      && IsFirstFree(before[PartOf(target) := content], target, k)
      && after == (before - {PartOf(target)})[Candidate(target, k) := content];
    final := Candidate(target, k);
  }

  /** A reported success is true of the file exactly when the announced size fits on the disk, the old
      content of the `.part` path included. */
  lemma SavedFileIsThePayloadIff(sha256: seq<byte> -> string, a: Announced, running: bool, faults: Faults,
                                 stream: seq<byte>, before: Disk, after: Disk)
      returns (final: Path)
    requires a.size <= UINT64_LIMIT - MAX_CHUNK
    requires UploadReported(sha256, a, running, false, faults, stream, before, after, true)
    ensures final !in before.files && final in after.files
    ensures after.files[final] <= Receive(stream, 0, a.size).payload
    ensures after.files[final] == Receive(stream, 0, a.size).payload <==> a.size <= RoomFor(before, PartOf(a.target))
  {
    var payload, part := Receive(stream, 0, a.size).payload, PartOf(a.target);
    var content := Taken(payload, RoomFor(before, part));
    assert Reached(running, stream, a.size).payload == payload || a.size == 0;
    ReceiveBounds(stream, 0, a.size);
    assert UploadOutcome(before.files, after.files, a.target, true, content);
    final := OutcomeFinal(before.files, after.files, a.target, content);
  }

  /** So there is a false success for every well-framed upload that does not fit: it is reported saved,
      and what was saved is only its beginning. */
  lemma FullDiskReportsSuccess(sha256: seq<byte> -> string, a: Announced, payloads: seq<seq<byte>>, before: Disk)
      returns (after: Disk, final: Path)
    requires Sendable(payloads, MAX_CHUNK) && |Joined(payloads)| == a.size <= UINT64_LIMIT - MAX_CHUNK
    requires (a.sha256 == "" || sha256(Joined(payloads)) == a.sha256) && RoomFor(before, PartOf(a.target)) < a.size
    ensures UploadReported(sha256, a, true, false, Faults(false, false), FramedAll(payloads), before, after, true)
    ensures final in after.files && after.files[final] < Joined(payloads)
  {
    var part := PartOf(a.target);
    var content := Taken(Joined(payloads), RoomFor(before, part));
    UploadCompletesIff(FramedAll(payloads), a.size);
    assert StartsWithFrames(FramedAll(payloads), payloads, a.size);
    var k := FirstFreeFrom(before.files[part := content], a.target, 0);
    AddedAtMostOne(before.files, part, content);
    final := Candidate(a.target, k);
    after := Disk((before.files - {part})[final := content], 0);
  }

  lemma AddedAtMostOne(files: Files, p: Path, content: seq<byte>)
    ensures |files[p := content]| <= |files| + 1
  {
    assert files[p := content].Keys == files.Keys + {p};
    assert |files.Keys| == |files| && |files[p := content].Keys| == |files[p := content]|;
  }

  /** The text that goes with an upload's report: what failed first. */
  function UploadError(sha256: seq<byte> -> string, a: Announced, running: bool, cancelled: bool,
                       faults: Faults, stream: seq<byte>, success: bool): string {
    var r := Reached(running && !cancelled, stream, a.size);
    if success then ""
    else if faults.openFails then "Falha ao criar arquivo local"
    else if cancelled then "Cancelado"
    else if r.error || r.total != a.size then "Conexão interrompida"
    else if a.sha256 != "" && sha256(r.payload) != a.sha256 then "Hash SHA-256 incorreto"
    else "Falha ao salvar arquivo final"
  }

  /** The whole account of one download connection past the handshake. */
  ghost predicate DownloadReported(session: ActiveTransferSession, running: bool, cancelled: bool, faults: Faults,
                                   files: Files, sent: seq<byte>, capacity: nat, report: Report, progress: seq<nat>) {
    && report.transferId == session.transferId
    && (if session.target !in files || faults.openFails
        then report == Report(session.transferId, false, "Arquivo local inacessível") && sent == [] && progress == []
        else
          var file, size, go := files[session.target], session.expectedSize, running && !cancelled;
          var wire := Due(go, file, 0, size);
          && sent == Taken(wire, capacity)
          && (report.success <==>
               !cancelled && |wire| <= capacity && (size == 0 || (running && size <= |file|)))
          && report.error == (if report.success then "" else "Envio interrompido")
          && SentProgress(progress, go, Min(size, |file|), |wire| <= capacity, capacity))
  }

  lemma HandshakeParts(handshake: seq<byte>, bytes: seq<byte>)
    requires |bytes| >= 49 && handshake == bytes[..49]
    ensures handshake[..UUID_BINARY_SIZE] == bytes[..16]
    ensures handshake[UUID_BINARY_SIZE..UUID_BINARY_SIZE + TOKEN_SIZE] == bytes[16..48]
    ensures HANDSHAKE_SIZE == 49 && handshake[48] == bytes[48]
  {
  }

  class FileTransferServer {
    const folder: Folder
    const sha256: seq<byte> -> string
    var running: bool
    var sessions: map<string, ActiveTransferSession>

    constructor (folder: Folder, sha256: seq<byte> -> string)
      ensures this.folder == folder && this.sha256 == sha256 && running && sessions == map[]
    {
      this.folder, this.sha256 := folder, sha256;
      running, sessions := true, map[];
    }

    method RegisterTransfer(transferId: string, tokenBytes: seq<byte>, target: Path, expectedSize: nat,
                            expectedSha256: string, direction: Direction)
      modifies this`sessions
      ensures sessions.Keys == old(sessions).Keys + {transferId}
      ensures forall id | id in old(sessions) && id != transferId :: sessions[id] == old(sessions)[id]
      ensures var s := sessions[transferId];
        && fresh(s)
        && s.transferId == transferId && s.tokenBytes == tokenBytes && s.target == target
        && s.expectedSize == expectedSize && s.expectedSha256 == expectedSha256
        && s.direction == direction && s.bytesTransferred == 0 && !s.cancelled
    {
      var session := new ActiveTransferSession(transferId, tokenBytes, target, expectedSize, expectedSha256,
                                               direction);
      sessions := sessions[transferId := session];
    }

    method CancelTransfer(transferId: string)
      modifies this`sessions, folder, if transferId in sessions then {sessions[transferId]} else {}
      ensures sessions == old(sessions) - {transferId}
      ensures transferId !in old(sessions) ==> folder.disk == old(folder.disk)
      ensures transferId in old(sessions) ==>
        var s := old(sessions)[transferId];
        && s.cancelled && s.bytesTransferred == old(s.bytesTransferred)
        && folder.disk == Removed(old(folder.disk), PartOf(s.target))
    {
      if transferId in sessions {
        var s := sessions[transferId];
        s.cancelled := true;
        folder.Remove(PartOf(s.target));
        sessions := sessions - {transferId};
      }
    }

    ghost function Parts(): set<Path>
      reads this
    {
      set id | id in sessions :: PartOf(sessions[id].target)
    }

    method Stop()
      modifies this, folder, sessions.Values
      ensures !running
      ensures !old(running) ==> sessions == old(sessions) && folder.disk == old(folder.disk)
      ensures !old(running) ==> forall s <- old(sessions).Values :: s.cancelled == old(s.cancelled)
      ensures old(running) ==> sessions == map[] && folder.disk.files == old(folder.disk.files - Parts())
      ensures old(running) ==> forall s <- old(sessions).Values :: s.cancelled
    {
      var was := running;
      running := false;
      if !was {
        return;
      }
      var todo := sessions.Keys;
      ghost var all := sessions.Values;
      while todo != {}
        invariant todo <= sessions.Keys && sessions == old(sessions)
        invariant !running
        invariant folder.disk.files == old(folder.disk.files)
          - set id | id in sessions && id !in todo :: PartOf(sessions[id].target)
        invariant forall id | id in sessions && id !in todo :: sessions[id].cancelled
        decreases todo
      {
        var id :| id in todo;
        sessions[id].cancelled := true;
        folder.Remove(PartOf(sessions[id].target));
        todo := todo - {id};
      }
      sessions := map[];
    }

    // ---- Handshake ----

    /** The session a handshake's 16 bytes select. The table's iteration order is left open. */
    method FindSession(id: seq<byte>) returns (session: ActiveTransferSession?)
      requires |id| == UUID_BINARY_SIZE
      ensures session == null <==> forall key | key in sessions :: !Answers(key, id)
      ensures session != null ==> exists key :: Picks(sessions.Keys, id, key) && sessions[key] == session
    {
      var candidate := UuidText(id);
      if candidate in sessions {
        CanonicalAnswers(id);
        assert Picks(sessions.Keys, id, candidate);
        return sessions[candidate];
      }
      var todo := sessions.Keys;
      while todo != {}
        invariant todo <= sessions.Keys
        invariant forall key | key in sessions && key !in todo :: !Answers(key, id)
        decreases todo
      {
        var key :| key in todo;
        AnswersIff(key, id);
        if WithoutDashes(key) == WithoutDashes(candidate) {
          assert Picks(sessions.Keys, id, key);
          return sessions[key];
        }
        todo := todo - {key};
      }
      return null;
    }

    // ---- Upload: the phone sends, this side receives ----

    /** The first free name for a finished upload. */
    method ResolveCollision(target: Path) returns (finalPath: Path)
      ensures exists k: nat ::
        && k <= |folder.disk.files|
        && IsFirstFree(folder.disk.files, target, k)
        && finalPath == Candidate(target, k)
    {
      finalPath := target;
      var count := 1;
      while finalPath in folder.disk.files
        invariant 1 <= count && finalPath == Candidate(target, count - 1)
        invariant forall j: nat | j < count - 1 :: Candidate(target, j) in folder.disk.files
        decreases |folder.disk.files| + 1 - count
      {
        TakenCandidatesAreBounded(folder.disk.files, target, count);
        finalPath := Candidate(target, count);
        count := count + 1;
      }
      TakenCandidatesAreBounded(folder.disk.files, target, count - 1);
      assert IsFirstFree(folder.disk.files, target, count - 1);
    }

    /** The receive loop: frame by frame into the `.part` file, the hash and the progress callback. The
        state of the output stream is `good`; nothing looks at it but the next write. */
    method ReceiveLoop(sock: Socket, session: ActiveTransferSession)
        returns (error: bool, total: nat, hashed: seq<byte>, progress: seq<nat>)
      requires PartOf(session.target) in folder.disk.files && folder.disk.files[PartOf(session.target)] == []
      modifies sock`incoming, session`bytesTransferred, folder
      ensures var r := Reached(running && !session.cancelled, old(sock.incoming), session.expectedSize);
        && error == r.error && total == r.total && hashed == r.payload && progress == r.progress
        && folder.disk == Written(old(folder.disk), PartOf(session.target), r.payload)
      ensures progress != [] ==> session.bytesTransferred == total
    {
      var part, good := PartOf(session.target), true;
      error, total, hashed, progress := false, 0, [], [];
      ghost var go, start := running && !session.cancelled, folder.disk;
      ghost var all := Reached(go, sock.incoming, session.expectedSize);
      while running && !session.cancelled && total < session.expectedSize
        invariant folder.disk == Written(start, part, hashed) && (good <==> |hashed| <= start.room)
        invariant if go then Accounted(all, hashed, progress, sock.incoming, total, session.expectedSize)
                  else total == 0 && hashed == [] && progress == []
        invariant progress != [] ==> session.bytesTransferred == total
        decreases |sock.incoming|
      {
        AccountedTurn(all, hashed, progress, sock.incoming, total, session.expectedSize);
        var frame := sock.ReadFrame(MAX_CHUNK);
        if !frame.Whole? {
          error := true;
          return;
        }
        WrittenTwice(start, part, hashed, frame.payload);
        if good {
          good := folder.Write(part, frame.payload);
        }
        hashed := hashed + frame.payload;
        total := Advance(total, |frame.payload|);
        session.bytesTransferred := total;
        progress := progress + [total];
      }
    }

    /** Every failure behind the opening: remove the `.part` file and report. */
    method GiveUp(session: ActiveTransferSession, error: string, ghost before: Disk, ghost content: seq<byte>)
        returns (report: Report)
      requires Holds(folder.disk, before, PartOf(session.target), content)
      modifies folder
      ensures report == Report(session.transferId, false, error)
      ensures UploadOutcome(before.files, folder.disk.files, session.target, false, content)
      ensures folder.disk.room == RoomFor(before, PartOf(session.target))
    {
      folder.Remove(PartOf(session.target));
      assert folder.disk.files == before.files - {PartOf(session.target)};
      report := Report(session.transferId, false, error);
    }

    /** Closed and checked: give the `.part` file its final name, or give it up. */
    method SaveUpload(session: ActiveTransferSession, faults: Faults, ghost before: Disk, ghost content: seq<byte>)
        returns (report: Report)
      requires Holds(folder.disk, before, PartOf(session.target), content)
      modifies folder
      ensures report.transferId == session.transferId
      ensures report.success <==> !faults.renameFails
      ensures report.error == if report.success then "" else "Falha ao salvar arquivo final"
      ensures UploadOutcome(before.files, folder.disk.files, session.target, report.success, content)
      ensures folder.disk.room == RoomFor(before, PartOf(session.target)) - if report.success then |content| else 0
    {
      var part := PartOf(session.target);
      var finalPath := ResolveCollision(session.target);
      AddedAtMostOne(before.files, part, content);
      var renamed := folder.Rename(part, finalPath, faults.renameFails);
      if renamed {
        assert folder.disk.files == (before.files - {part})[finalPath := content];
        report := Report(session.transferId, true, "");
      } else {
        report := GiveUp(session, "Falha ao salvar arquivo final", before, content);
      }
    }

    method ReceiveUpload(sock: Socket, session: ActiveTransferSession, faults: Faults)
        returns (report: Report, progress: seq<nat>)
      modifies sock`incoming, session`bytesTransferred, folder
      ensures report.transferId == session.transferId
      ensures UploadReported(sha256, session.Offer(), running, session.cancelled, faults, old(sock.incoming),
                             old(folder.disk), folder.disk, report.success)
      ensures report.error == UploadError(sha256, session.Offer(), running, session.cancelled, faults,
                                          old(sock.incoming), report.success)
      ensures progress == if faults.openFails then [] else
        Reached(running && !session.cancelled, old(sock.incoming), session.expectedSize).progress
    {
      var part := PartOf(session.target);
      if faults.openFails {
        return Report(session.transferId, false, "Falha ao criar arquivo local"), [];
      }
      ghost var before := folder.disk;
      folder.Truncate(part);
      var error, total, hashed;
      error, total, hashed, progress := ReceiveLoop(sock, session);
      ghost var content := Taken(hashed, RoomFor(before, part));
      OpenedAndWritten(before, part, hashed);
      if error || session.cancelled || total != session.expectedSize {
        report := GiveUp(session, if session.cancelled then "Cancelado" else "Conexão interrompida", before, content);
        return;
      }
      if session.expectedSha256 != "" && sha256(hashed) != session.expectedSha256 {
        report := GiveUp(session, "Hash SHA-256 incorreto", before, content);
        return;
      }
      report := SaveUpload(session, faults, before, content);
    }

    // ---- Download: this side sends ----

    /** The send loop over an opened file: read a piece, write its length, write the piece. Progress is
        called with the bytes sent after each piece that the peer has taken whole. */
    method SendLoop(sock: Socket, session: ActiveTransferSession, file: seq<byte>)
        returns (error: bool, totalSent: nat, progress: seq<nat>)
      requires sock.sent == []
      modifies sock`sent, session`bytesTransferred
      ensures var wire := Due(running && !session.cancelled, file, 0, session.expectedSize);
        && sock.sent == Taken(wire, sock.capacity)
        && error == (|wire| > sock.capacity)
      ensures ProgressIs(progress, totalSent, Min(session.expectedSize, |file|))
      ensures !error && running && !session.cancelled ==> totalSent == Min(session.expectedSize, |file|)
      ensures !(running && !session.cancelled) ==> progress == []
      ensures error ==> StoppedAfter(|progress|, Min(session.expectedSize, |file|), sock.capacity)
      ensures progress != [] ==> session.bytesTransferred == totalSent
    {
      var size := session.expectedSize;
      error, totalSent, progress := false, 0, [];
      ghost var go := running && !session.cancelled;
      ghost var wire := Due(go, file, 0, size);
      while running && !session.cancelled && totalSent < size
        invariant SentSoFar(wire, go, file, size, sock.sent, sock.capacity, totalSent, progress)
        invariant !go ==> progress == []
        invariant progress != [] ==> session.bytesTransferred == totalSent
        decreases size - totalSent
      {
        var bytesRead := Min(Min(CHUNK_PLAINTEXT_SIZE, size - totalSent), |file| - totalSent);
        if bytesRead == 0 {
          break;
        }
        error := SendPiece(sock, file, size, totalSent, bytesRead, wire, progress);
        if error {
          return;
        }
        totalSent := totalSent + bytesRead;
        session.bytesTransferred := totalSent;
        progress := progress + [totalSent];
      }
      SentAll(wire, go, file, size, sock.sent, sock.capacity, totalSent, progress);
    }

    /** One piece of the file: its frame is taken whole, or there is an error. */
    method SendPiece(sock: Socket, file: seq<byte>, ghost size: nat, at: nat, n: nat,
                     ghost wire: seq<byte>, ghost progress: seq<nat>)
        returns (error: bool)
      requires at < size && at < |file| && n == Min(Min(CHUNK_PLAINTEXT_SIZE, size - at), |file| - at)
      requires SentSoFar(wire, true, file, size, sock.sent, sock.capacity, at, progress)
      modifies sock`sent
      ensures error ==>
        && |wire| > sock.capacity && sock.sent == Taken(wire, sock.capacity)
        && StoppedAfter(|progress|, Min(size, |file|), sock.capacity)
      ensures !error ==> SentSoFar(wire, true, file, size, sock.sent, sock.capacity, at + n, progress + [at + n])
    {
      NextChunkOnTheWire(file, at, size);
      OneMorePiece(progress, at, Min(size, |file|), n);
      error := WriteFrame(sock, BigEndian(n), file[at..at + n], wire, Due(true, file, at + n, size));
    }

    /** The two writes of one frame; the second is not attempted after the first has failed. */
    method WriteFrame(sock: Socket, length: seq<byte>, chunk: seq<byte>, ghost wire: seq<byte>, ghost due: seq<byte>)
        returns (error: bool)
      requires |sock.sent| <= sock.capacity && wire == sock.sent + (length + chunk + due)
      modifies sock`sent
      ensures error <==> |old(sock.sent)| + |length| + |chunk| > sock.capacity
      ensures error ==> |wire| > sock.capacity && sock.sent == Taken(wire, sock.capacity)
      ensures !error ==> |sock.sent| == |old(sock.sent)| + |length| + |chunk| && wire == sock.sent + due
    {
      assert wire == sock.sent + length + (chunk + due);
      assert wire == sock.sent + length + chunk + due;
      ghost var start := sock.sent;
      var ok := sock.Write(length);
      if !ok {
        CutShort(start + length, chunk + due, sock.capacity);
        return true;
      }
      ok := sock.Write(chunk);
      if !ok {
        CutShort(start + length + chunk, due, sock.capacity);
      }
      return !ok;
    }

    method SendDownload(sock: Socket, session: ActiveTransferSession, faults: Faults)
        returns (report: Report, progress: seq<nat>)
      requires sock.sent == []
      modifies sock`sent, session`bytesTransferred
      ensures DownloadReported(session, running, session.cancelled, faults, folder.disk.files,
                               sock.sent, sock.capacity, report, progress)
    {
      if session.target !in folder.disk.files || faults.openFails {
        return Report(session.transferId, false, "Arquivo local inacessível"), [];
      }
      var error, totalSent;
      error, totalSent, progress := SendLoop(sock, session, folder.disk.files[session.target]);
      LastIsTotal(progress, totalSent, Min(session.expectedSize, |folder.disk.files[session.target]|));
      if error || session.cancelled || totalSent != session.expectedSize {
        report := Report(session.transferId, false, "Envio interrompido");
      } else {
        report := Report(session.transferId, true, "");
      }
    }

    // ---- One connection ----

    /** Do these bytes select the session registered under `key`, with its token? The first 16 are the id,
        the next 32 the token, which is compared only when the session holds a full one. */
    ghost predicate Admits(bytes: seq<byte>, key: string)
      requires |bytes| >= 49
      reads this
    {
      && Picks(sessions.Keys, bytes[..16], key)
      && (|sessions[key].tokenBytes| == 32 ==> bytes[16..48] == sessions[key].tokenBytes)
    }

    /** The account of a connection past the handshake, in the direction of byte 48. */
    ghost predicate Served(session: ActiveTransferSession, bytes: seq<byte>, faults: Faults, before: Disk,
                           sent: seq<byte>, capacity: nat, report: Report, progress: seq<nat>)
      requires |bytes| >= 49
      reads this, folder, session
    {
      var a, stream, cancelled := session.Offer(), bytes[49..], session.cancelled;
      && report.transferId == session.transferId
      && (bytes[48] == 0 ==>
           && UploadReported(sha256, a, running, cancelled, faults, stream, before, folder.disk, report.success)
           && report.error == UploadError(sha256, a, running, cancelled, faults, stream, report.success)
           && progress == (if faults.openFails then [] else Reached(running && !cancelled, stream, a.size).progress)
           && sent == [])
      && (bytes[48] == 1 ==>
           && folder.disk == before
           && DownloadReported(session, running, cancelled, faults, before.files, sent, capacity, report, progress))
    }

    method HandleConnection(sock: Socket, faults: Faults) returns (reports: seq<Report>, progress: seq<nat>)
      requires sock.sent == []
      modifies sock, folder, sessions.Values`bytesTransferred
      ensures |reports| <= 1
      ensures reports == [] ==> folder.disk == old(folder.disk) && sock.sent == [] && progress == []
      ensures reports != [] ==>
        var bytes := old(sock.incoming);
        && |bytes| >= 49 && bytes[48] <= 1
        && exists key ::
             && Admits(bytes, key)
             && Served(sessions[key], bytes, faults, old(folder.disk), sock.sent, sock.capacity, reports[0], progress)
      ensures
        var bytes := old(sock.incoming);
        && |bytes| >= 49 && bytes[48] <= 1
        && (exists key :: Picks(sessions.Keys, bytes[..16], key))
        && (forall key | Picks(sessions.Keys, bytes[..16], key) :: Admits(bytes, key))
        ==> |reports| == 1
    {
      ghost var bytes := sock.incoming;
      var buf := new byte[HANDSHAKE_SIZE];
      var got := sock.ReadExact(buf, HANDSHAKE_SIZE);
      if !got {
        return [], [];
      }
      var handshake := buf[..];
      HandshakeParts(handshake, bytes);
      var session := FindSession(handshake[..UUID_BINARY_SIZE]);
      if session == null {
        return [], [];
      }
      ghost var key :| Picks(sessions.Keys, bytes[..16], key) && sessions[key] == session;
      if !TokenAccepted(session.tokenBytes, handshake[UUID_BINARY_SIZE..UUID_BINARY_SIZE + TOKEN_SIZE]) {
        assert !Admits(bytes, key);
        return [], [];
      }
      assert Admits(bytes, key);
      if handshake[HANDSHAKE_SIZE - 1] > 1 {
        return [], [];
      }
      var report;
      report, progress := Serve(sock, session, handshake[HANDSHAKE_SIZE - 1], bytes, faults);
      reports := [report];
    }

    /** Behind the handshake: one of the two directions. */
    method Serve(sock: Socket, session: ActiveTransferSession, direction: byte, ghost bytes: seq<byte>, faults: Faults)
        returns (report: Report, progress: seq<nat>)
      requires |bytes| >= 49 && direction == bytes[48] <= 1 && sock.incoming == bytes[49..] && sock.sent == []
      modifies sock`incoming, sock`sent, session`bytesTransferred, folder
      ensures Served(session, bytes, faults, old(folder.disk), sock.sent, sock.capacity, report, progress)
    {
      if direction == 0 {
        report, progress := ReceiveUpload(sock, session, faults);
      } else {
        report, progress := SendDownload(sock, session, faults);
      }
    }
  }
}
