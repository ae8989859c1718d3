/** The transfer manager's handlers, over the server's session table: each does to the books what
    TransferBook.Handle says. */
module FileTransferManager {
  import opened Wire
  import opened FinalName
  import opened Handshake
  import opened TransferBook
  import FTS = FileTransferServer

  class FileTransferManager {
    const server: FTS.FileTransferServer
    var activeOffers: map<string, TransferMeta>
    var outbox: seq<Sent>
    var finished: seq<Finished>
    var currentSessionId: nat

    constructor (server: FTS.FileTransferServer)
      requires server.sessions == map[]
      ensures this.server == server && Books() == EMPTY && currentSessionId == 0
    {
      this.server := server;
      activeOffers, outbox, finished, currentSessionId := map[], [], [], 0;
    }

    /** The manager's maps and the server's table as one value. */
    ghost function Books(): Book
      reads this, server
    {
      Book(activeOffers, Table(), outbox, finished)
    }

    ghost function Table(): map<string, Registered>
      reads server
    {
      map id | id in server.sessions :: Entry(server.sessions[id])
    }

    static function Entry(s: FTS.ActiveTransferSession): Registered {
      Registered(s.tokenBytes, s.target, s.expectedSize, s.expectedSha256, s.direction)
    }

    method Register(id: string, token: seq<byte>, target: Path, size: nat, sha256: string, direction: FTS.Direction)
      modifies server`sessions
      ensures Table() == old(Table())[id := Registered(token, target, size, sha256, direction)]
    {
      server.RegisterTransfer(id, token, target, size, sha256, direction);
    }

    method SendTo(to: nat, message: Message)
      modifies this`outbox
      ensures outbox == old(outbox) + [Sent(to, message)]
    {
      outbox := outbox + [Sent(to, message)];
    }

    method HandleFileOffer(sessionId: nat, payload: Option<FileOffer>, token: seq<byte>, target: Path)
      modifies this`activeOffers, this`outbox, server`sessions
      ensures Books() == Handle(old(Books()), Offer(sessionId, payload, token, target))
    {
      if payload.None? {
        return;
      }
      var offer := payload.value;
      SendTo(sessionId, FileAccept(offer.transferId));
      activeOffers := activeOffers[offer.transferId := TransferMeta(sessionId, offer, NO_PATH)];
      Register(offer.transferId, token, target, offer.size, offer.sha256, FTS.MobileUploadToPc);
      SendTo(sessionId, FileReady(offer.transferId, token));
      assert outbox == old(outbox)
        + [Sent(sessionId, FileAccept(offer.transferId)), Sent(sessionId, FileReady(offer.transferId, token))];
    }

    method SendFiles(sessionId: nat, files: seq<Picked>)
      modifies this`activeOffers, this`outbox, server`sessions
      ensures Books()
           == Handle(old(Books()), Event.SendFiles(if sessionId == 0 then currentSessionId else sessionId, files))
    {
      var to := if sessionId == 0 && currentSessionId != 0 then currentSessionId else sessionId;
      if to == 0 {
        return;
      }
      var i := 0;
      while i < |files|
        invariant i <= |files|
        invariant SendAll(Books(), to, files[i..]) == SendAll(old(Books()), to, files)
        invariant finished == old(finished)
      {
        var f := files[i];
        ghost var before := Books();
        assert files[i..][1..] == files[i + 1..];
        i := i + 1;
        if f.isFile && |f.uuid| == UUID_BINARY_SIZE && f.opens {
          var offer := OfferFor(f);
          activeOffers := activeOffers[offer.transferId := TransferMeta(to, offer, f.path)];
          Register(offer.transferId, f.token, f.path, offer.size, f.sha256, FTS.DesktopDownloadToMobile);
          SendTo(to, OfferMade(offer));
        }
        assert Books() == SendOne(before, to, f);
      }
    }

    method HandleFileAccept(sessionId: nat, transferId: string, token: seq<byte>)
      modifies this`outbox, server`sessions
      ensures Books() == Handle(old(Books()), Accept(sessionId, transferId, token))
    {
      if transferId == "" {
        return;
      }
      if transferId in activeOffers {
        var meta := activeOffers[transferId];
        Register(transferId, token, meta.filePath, meta.offer.size, meta.offer.sha256, FTS.DesktopDownloadToMobile);
        SendTo(sessionId, FileReady(transferId, token));
      }
    }

    /** Shared by a reject and a cancel message: the session goes with its `.part` file, the offer too. */
    method DropTransfer(transferId: string)
      modifies this`activeOffers, server`sessions, server.folder, server.sessions.Values
      ensures Books() == Dropped(old(Books()), transferId)
      ensures transferId != "" && transferId in old(server.sessions) ==>
        && old(server.sessions)[transferId].cancelled
        && server.folder.disk == Removed(old(server.folder.disk), PartOf(old(server.sessions)[transferId].target))
    {
      if transferId != "" {
        server.CancelTransfer(transferId);
        activeOffers := activeOffers - {transferId};
        assert Table() == old(Table()) - {transferId};
      }
    }

    method HandleFileReject(transferId: string)
      modifies this`activeOffers, server`sessions, server.folder, server.sessions.Values
      ensures Books() == Handle(old(Books()), Reject(transferId))
    {
      DropTransfer(transferId);
    }

    method HandleFileCancel(transferId: string)
      modifies this`activeOffers, server`sessions, server.folder, server.sessions.Values
      ensures Books() == Handle(old(Books()), Cancel(transferId))
    {
      DropTransfer(transferId);
    }

    method HandleFileComplete(transferId: string, ok: bool, error: string)
      modifies this`activeOffers, this`finished
      ensures Books() == Handle(old(Books()), Complete(transferId, ok, error))
    {
      if transferId in activeOffers {
        finished := finished + [Finished(transferId, activeOffers[transferId].offer.name, ok, error)];
        activeOffers := activeOffers - {transferId};
      }
    }

    method Stop()
      modifies server, server.folder, server.sessions.Values
      ensures Books() == if old(server.running) then Handle(old(Books()), Event.Stop) else old(Books())
      ensures !server.running
    {
      server.Stop();
    }

    /** The server's finished callback. */
    method OnFinished(transferId: string, success: bool, error: string)
      modifies this`activeOffers, this`outbox, this`finished
      ensures Books() == Handle(old(Books()), Finish(transferId, success, error))
    {
      var sessionId, fileName := 0, "";
      if transferId in activeOffers {
        sessionId := activeOffers[transferId].sessionId;
        fileName := activeOffers[transferId].offer.name;
      }
      if sessionId != 0 {
        SendTo(sessionId, FileComplete(transferId, success, if success then "" else error));
      }
      finished := finished + [Finished(transferId, fileName, success, error)];
      activeOffers := activeOffers - {transferId};
    }
  }
}
