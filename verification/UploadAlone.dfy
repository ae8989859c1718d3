/** One upload whose thread runs with nothing in between: the actions of UploadInterleavings then give
    exactly the account that FileTransferServer proves of `ReceiveUpload`. */
module UploadAlone {
  import opened Wire
  import opened TransferLoops
  import opened FinalName
  import opened FileTransferServer
  import opened UploadInterleavings

  /** What a connection runs against: its session, m_running and the faults of the file system. */
  datatype Setting = Setting(sha: Sha, se: Session, running: bool, faults: Faults)

  predicate FaultAt(p: Phase, faults: Faults) {
    (p.Opening? && faults.openFails) || (p.Renaming? && faults.renameFails)
  }

  function Next(e: Setting, x: Turned): Turned
    requires !x.conn.phase.Done?
  {
    Turn(e.sha, x.conn, e.se, x.disk, e.running, FaultAt(x.conn.phase, e.faults))
  }

  function TurnsOf(e: Setting, x: Turned, n: nat): Turned
    decreases n
  {
    if n == 0 || x.conn.phase.Done? then x else TurnsOf(e, Next(e, x), n - 1)
  }

  ghost predicate LeadsTo(e: Setting, x: Turned, y: Turned) {
    exists n: nat :: TurnsOf(e, x, n) == y
  }

  lemma {:induction false} TurnsAdd(e: Setting, x: Turned, m: nat, n: nat)
    ensures TurnsOf(e, x, m + n) == TurnsOf(e, TurnsOf(e, x, m), n)
    decreases m
  {
    if m > 0 && !x.conn.phase.Done? {
      TurnsAdd(e, Next(e, x), m - 1, n);
    }
  }

  lemma Via(e: Setting, x: Turned, y: Turned, z: Turned)
    requires LeadsTo(e, x, y) && LeadsTo(e, y, z)
    ensures LeadsTo(e, x, z)
  {
    var m: nat :| TurnsOf(e, x, m) == y;
    var n: nat :| TurnsOf(e, y, n) == z;
    TurnsAdd(e, x, m, n);
  }

  lemma OneTurn(e: Setting, x: Turned, y: Turned)
    requires !x.conn.phase.Done? && y == Next(e, x)
    ensures LeadsTo(e, x, y)
  {
    assert TurnsOf(e, y, 0) == y;
    assert TurnsOf(e, x, 1) == y;
  }

  lemma NextVia(e: Setting, x: Turned, y: Turned)
    requires !x.conn.phase.Done? && LeadsTo(e, Next(e, x), y)
    ensures LeadsTo(e, x, y)
  {
    OneTurn(e, x, Next(e, x));
    Via(e, x, Next(e, x), y);
  }

  // ---- The loop ----

  /** The upload has written what fits of its payload, and changed nothing else. */
  ghost predicate Wrote(before: Disk, part: Path, x: Turned) {
    var room := RoomFor(before, part);
    && Holds(x.disk, before, part, x.conn.written)
    && x.conn.written == Taken(x.conn.payload, room)
    && (x.conn.bad <==> |x.conn.payload| > room)
  }

  lemma WroteMore(before: Disk, part: Path, x: Turned, p: seq<byte>, rest: seq<byte>)
    requires Wrote(before, part, x)
    ensures Wrote(before, part, Turned(Received(x.conn, p, rest, x.disk.room),
                                       if x.conn.bad then x.disk else Written(x.disk, part, p)))
  {
    var cn, room := x.conn, RoomFor(before, part);
    if cn.bad {
      CutShort(cn.payload, p, room);
    } else {
      assert Taken(cn.payload + p, room) == cn.payload + Taken(p, room - |cn.payload|);
      var more := cn.written + Taken(p, x.disk.room);
      assert before.files[part := cn.written][part := more] == before.files[part := more];
    }
  }

  /** From the loop guard the thread gets to the end of the loop, with what `Receive` gives. */
  lemma {:induction false} LoopEnds(e: Setting, x: Turned, before: Disk, all: Reception) returns (y: Turned)
    requires x.conn.phase.Guard? && !x.conn.error && e.running && !e.se.cancelled
    requires Accounted(all, x.conn.payload, x.conn.progress, x.conn.rest, x.conn.total, e.se.size)
    requires Wrote(before, PartOf(e.se.target), x)
    ensures LeadsTo(e, x, y) && LoopResult(before, PartOf(e.se.target), x.conn.sid, all, y)
    decreases |x.conn.rest|
  {
    var cn, part := x.conn, PartOf(e.se.target);
    if cn.total >= e.se.size {
      AccountedAtTheEnd(all, cn.payload, cn.progress, cn.rest, cn.total, e.se.size);
      y := x.(conn := cn.(phase := Closing));
      LeaveGuard(e, x);
    } else {
      AccountedTurn(all, cn.payload, cn.progress, cn.rest, cn.total, e.se.size);
      ReachBody(e, x);
      var b := x.(conn := cn.(phase := Body));
      match NextFrame(cn.rest, MAX_CHUNK)
      case Whole(p, rest) =>
        WroteMore(before, part, b, p, rest);
        y := LoopEnds(e, Next(e, b), before, all);
        NextVia(e, b, y);
        Via(e, x, b, y);
      case _ =>
        y := Next(e, b);
        OneTurn(e, b, y);
        Via(e, x, b, y);
    }
  }

  ghost predicate LoopResult(before: Disk, part: Path, sid: nat, r: Reception, y: Turned) {
    && y.conn.phase.Closing? && y.conn.sid == sid && Wrote(before, part, y)
    && y.conn.error == r.error && y.conn.total == r.total && y.conn.payload == r.payload
  }

  lemma LeaveGuard(e: Setting, x: Turned)
    requires x.conn.phase.Guard? && !(e.running && !e.se.cancelled && x.conn.total < e.se.size)
    ensures LeadsTo(e, x, x.(conn := x.conn.(phase := Closing)))
  {
    var y := x.(conn := x.conn.(phase := Closing));
    if e.running {
      OneTurn(e, Next(e, x), y);
      NextVia(e, x, y);
    } else {
      OneTurn(e, x, y);
    }
  }

  lemma ReachBody(e: Setting, x: Turned)
    requires x.conn.phase.Guard? && e.running && !e.se.cancelled && x.conn.total < e.se.size
    ensures LeadsTo(e, x, x.(conn := x.conn.(phase := Body)))
  {
    var y := x.(conn := x.conn.(phase := Body));
    OneTurn(e, Next(e, x), y);
    NextVia(e, x, y);
  }

  /** From the handshake to the end of the loop. */
  lemma ToTheLoopEnd(e: Setting, sid: nat, stream: seq<byte>, before: Disk) returns (y: Turned)
    requires !e.faults.openFails
    ensures LeadsTo(e, Turned(Fresh(sid, stream), before), y)
    ensures LoopResult(before, PartOf(e.se.target), sid,
                       Reached(e.running && !e.se.cancelled, stream, e.se.size), y)
  {
    var x := Turned(Fresh(sid, stream), before);
    var g := Next(e, x);
    if e.running && !e.se.cancelled {
      var all := Receive(stream, 0, e.se.size);
      assert [] + all.payload == all.payload && [] + all.progress == all.progress;
      y := LoopEnds(e, g, before, all);
    } else {
      LeaveGuard(e, g);
      y := g.(conn := g.conn.(phase := Closing));
    }
    NextVia(e, x, y);
  }

  // ---- Behind the loop ----

  lemma {:induction false} ProbesEnd(e: Setting, x: Turned, j: nat, k: nat)
    requires x.conn.phase == Probing(j) && j <= k && IsFirstFree(x.disk.files, e.se.target, k)
    ensures LeadsTo(e, x, x.(conn := x.conn.(phase := Renaming(k))))
    decreases k - j
  {
    var y := x.(conn := x.conn.(phase := Renaming(k)));
    if j < k {
      ProbesEnd(e, Next(e, x), j + 1, k);
      NextVia(e, x, y);
    } else {
      OneTurn(e, x, y);
    }
  }

  /** An upload that is complete and accepted gets as far as renaming, with the first free name. */
  lemma ToTheRename(e: Setting, sid: nat, stream: seq<byte>, before: Disk) returns (y: Turned, k: nat)
    requires !e.faults.openFails && !e.se.cancelled
    requires var r := Reached(e.running, stream, e.se.size);
      Complete(r, e.se.size) && HashAccepted(e.sha, e.se.sha256, r.payload)
    ensures LeadsTo(e, Turned(Fresh(sid, stream), before), y)
    ensures y.conn.phase == Renaming(k) && y.conn.sid == sid && Wrote(before, PartOf(e.se.target), y)
    ensures y.conn.payload == Reached(e.running, stream, e.se.size).payload
    ensures k <= |y.disk.files| && IsFirstFree(y.disk.files, e.se.target, k)
  {
    var x := Turned(Fresh(sid, stream), before);
    var z := ToTheLoopEnd(e, sid, stream, before);
    var p := z.(conn := z.conn.(phase := Probing(0)));
    k := FirstFreeFrom(z.disk.files, e.se.target, 0);
    ProbesEnd(e, p, 0, k);
    y := p.(conn := p.conn.(phase := Renaming(k)));
    NextVia(e, Next(e, z), y);
    NextVia(e, z, y);
    Via(e, x, z, y);
  }

  /** An upload that is not, is interrupted or a mismatch; its `.part` file is removed. */
  lemma ToTheDiscard(e: Setting, sid: nat, stream: seq<byte>, before: Disk) returns (y: Turned)
    requires !e.faults.openFails
    requires var r := Reached(e.running && !e.se.cancelled, stream, e.se.size);
      e.se.cancelled || !Complete(r, e.se.size) || !HashAccepted(e.sha, e.se.sha256, r.payload)
    ensures LeadsTo(e, Turned(Fresh(sid, stream), before), y)
    ensures y.conn.phase.Done? && y.conn.phase.outcome.Failed?
    ensures y.disk == Disk(before.files - {PartOf(e.se.target)}, RoomFor(before, PartOf(e.se.target)))
  {
    var x := Turned(Fresh(sid, stream), before);
    var z := ToTheLoopEnd(e, sid, stream, before);
    var d := Next(e, Next(e, z));
    y := DiscardEnds(e, d, before);
    NextVia(e, Next(e, z), y);
    NextVia(e, z, y);
    Via(e, x, z, y);
  }

  lemma DiscardEnds(e: Setting, d: Turned, before: Disk) returns (y: Turned)
    requires d.conn.phase.Discarding? && Holds(d.disk, before, PartOf(e.se.target), d.conn.written)
    ensures LeadsTo(e, d, y)
    ensures y.conn.phase.Done? && y.conn.phase.outcome.Failed?
    ensures y.disk == Disk(before.files - {PartOf(e.se.target)}, RoomFor(before, PartOf(e.se.target)))
  {
    var part := PartOf(e.se.target);
    y := Next(e, Next(e, d));
    OneTurn(e, Next(e, d), y);
    NextVia(e, d, y);
    assert before.files[part := d.conn.written] - {part} == before.files - {part};
  }

  lemma RenameEnds(e: Setting, x: Turned, before: Disk, k: nat) returns (y: Turned)
    requires x.conn.phase == Renaming(k) && Wrote(before, PartOf(e.se.target), x)
    requires k <= |x.disk.files| && IsFirstFree(x.disk.files, e.se.target, k)
    ensures LeadsTo(e, x, y) && y.conn.phase.Done?
    ensures y.conn.phase.outcome.Saved? <==> !e.faults.renameFails
    ensures UploadOutcome(before.files, y.disk.files, e.se.target, y.conn.phase.outcome.Saved?, x.conn.written)
    ensures y.disk.room
         == RoomFor(before, PartOf(e.se.target)) - if y.conn.phase.outcome.Saved? then |x.conn.written| else 0
  {
    var part, final := PartOf(e.se.target), Candidate(e.se.target, k);
    AddedAtMostOne(before.files, part, x.conn.written);
    if e.faults.renameFails {
      y := DiscardEnds(e, Next(e, x), before);
    } else {
      y := Next(e, Next(e, x));
      OneTurn(e, Next(e, x), y);
      assert (before.files[part := x.conn.written] - {part})[final := x.conn.written]
          == (before.files - {part})[final := x.conn.written];
    }
    NextVia(e, x, y);
  }

  /** Main result for one upload alone: its thread comes to its end, and then verdict, folder and room
      are those of the account proved of `ReceiveUpload`. */
  lemma AloneAsReported(e: Setting, sid: nat, stream: seq<byte>, before: Disk) returns (y: Turned)
    ensures LeadsTo(e, Turned(Fresh(sid, stream), before), y) && y.conn.phase.Done?
    ensures UploadReported(e.sha, Announced(e.se.target, e.se.size, e.se.sha256), e.running, e.se.cancelled,
                           e.faults, stream, before, y.disk, y.conn.phase.outcome.Saved?)
  {
    var x := Turned(Fresh(sid, stream), before);
    var r := Reached(e.running && !e.se.cancelled, stream, e.se.size);
    if e.faults.openFails {
      y := Next(e, Next(e, x));
      OneTurn(e, Next(e, x), y);
      NextVia(e, x, y);
    } else if e.se.cancelled || !Complete(r, e.se.size) || !HashAccepted(e.sha, e.se.sha256, r.payload) {
      y := ToTheDiscard(e, sid, stream, before);
    } else {
      var z, k := ToTheRename(e, sid, stream, before);
      y := RenameEnds(e, z, before, k);
      Via(e, x, z, y);
    }
  }
}
