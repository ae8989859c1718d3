/** The transfer manager's book-keeping: its active offers, the server's session table and the
    messages that go out. Every handler is one atomic event. */
module TransferBook {
  import opened Wire
  import opened FinalName
  import opened Handshake
  import FTS = FileTransferServer

  datatype Option<+T> = None | Some(value: T)

  datatype FileOffer = FileOffer(transferId: string, name: string, size: nat, mime: string, sha256: string)

  datatype TransferMeta = TransferMeta(sessionId: nat, offer: FileOffer, filePath: Path)

  /** What the server's table holds for one id. */
  datatype Registered = Registered(token: seq<byte>, target: Path, size: nat, sha256: string, direction: FTS.Direction)

  datatype Message =
    | FileAccept(transferId: string)
    | FileReady(transferId: string, token: seq<byte>)
    | OfferMade(offer: FileOffer)
    | FileComplete(transferId: string, ok: bool, error: string)

  datatype Sent = Sent(to: nat, message: Message)

  datatype Finished = Finished(transferId: string, fileName: string, success: bool, error: string)

  datatype Book = Book(offers: map<string, TransferMeta>, sessions: map<string, Registered>,
                       outbox: seq<Sent>, finished: seq<Finished>)

  /** A file picked for sending, with what the code reads about it and the random bytes it draws. */
  datatype Picked = Picked(path: Path, isFile: bool, opens: bool, size: nat, sha256: string,
                           uuid: seq<byte>, token: seq<byte>)

  datatype Event =
    | Offer(sessionId: nat, offer: Option<FileOffer>, token: seq<byte>, target: Path)
    | SendFiles(sessionId: nat, files: seq<Picked>)
    | Accept(sessionId: nat, transferId: string, token: seq<byte>)
    | Reject(transferId: string)
    | Complete(transferId: string, ok: bool, error: string)
    | Cancel(transferId: string)
    | Finish(transferId: string, success: bool, error: string)
    | Stop  // of a running server; stopping it again changes nothing

  predicate Usable(f: Picked) {
    f.isFile && f.opens && |f.uuid| == UUID_BINARY_SIZE
  }

  function OfferFor(f: Picked): FileOffer
    requires Usable(f)
  {
    FileOffer(UuidText(f.uuid), f.path.name, f.size, "application/octet-stream", f.sha256)
  }

  function SendOne(b: Book, to: nat, f: Picked): Book {
    if !Usable(f) then b else
    var offer := OfferFor(f);
    b.(offers := b.offers[offer.transferId := TransferMeta(to, offer, f.path)],
       sessions := b.sessions[offer.transferId :=
         Registered(f.token, f.path, f.size, f.sha256, FTS.DesktopDownloadToMobile)],
       outbox := b.outbox + [Sent(to, OfferMade(offer))])
  }

  function SendAll(b: Book, to: nat, files: seq<Picked>): Book
    decreases |files|
  {
    if files == [] then b else SendAll(SendOne(b, to, files[0]), to, files[1..])
  }

  function Handle(b: Book, e: Event): Book {
    match e
    case Offer(from, None, token, target) => b
    case Offer(from, Some(offer), token, target) =>
      var id := offer.transferId;
      b.(offers := b.offers[id := TransferMeta(from, offer, NO_PATH)],
         sessions := b.sessions[id := Registered(token, target, offer.size, offer.sha256, FTS.MobileUploadToPc)],
         outbox := b.outbox + [Sent(from, FileAccept(id)), Sent(from, FileReady(id, token))])
    case SendFiles(to, files) => if to == 0 then b else SendAll(b, to, files)
    case Accept(from, id, token) =>
      if id == "" || id !in b.offers then b else
      var meta := b.offers[id];
      b.(sessions := b.sessions[id :=
           Registered(token, meta.filePath, meta.offer.size, meta.offer.sha256, FTS.DesktopDownloadToMobile)],
         outbox := b.outbox + [Sent(from, FileReady(id, token))])
    case Reject(id) => Dropped(b, id)
    case Cancel(id) => Dropped(b, id)
    case Complete(id, ok, error) =>
      if id !in b.offers then b else
      b.(offers := b.offers - {id}, finished := b.finished + [Finished(id, b.offers[id].offer.name, ok, error)])
    case Finish(id, success, error) =>
      var known := id in b.offers;
      var to := if known then b.offers[id].sessionId else 0;
      b.(offers := b.offers - {id},
         outbox := if to == 0 then b.outbox
                   else b.outbox + [CompleteReply(to, id, success, error)],
         finished := b.finished + [Finished(id, if known then b.offers[id].offer.name else "", success, error)])
    case Stop => b.(sessions := map[])
  }

  function CompleteReply(to: nat, id: string, success: bool, error: string): Sent {
    Sent(to, FileComplete(id, success, if success then "" else error))
  }

  function Dropped(b: Book, id: string): Book {
    if id == "" then b else b.(offers := b.offers - {id}, sessions := b.sessions - {id})
  }

  function HandleAll(b: Book, events: seq<Event>): Book
    decreases |events|
  {
    if events == [] then b else HandleAll(Handle(b, events[0]), events[1..])
  }

  /** The path recorded with an offer of the phone. */
  const NO_PATH := Path("", "")

  const EMPTY := Book(map[], map[], [], [])

  // ---- The two maps agree ----

  /** What an active offer and its session, if both are there, have in common. Only an offer of the
      phone, which has no local path, can have an upload session. */
  ghost predicate Agrees(b: Book, id: string) {
    id in b.offers && id in b.sessions ==>
      && b.sessions[id].size == b.offers[id].offer.size
      && b.sessions[id].sha256 == b.offers[id].offer.sha256
      && match b.sessions[id].direction
         case DesktopDownloadToMobile => b.sessions[id].target == b.offers[id].filePath
         case MobileUploadToPc => b.offers[id].filePath == NO_PATH
  }

  /** The last word sent about a registration of `id`: the token of a `file_ready`, or none after a
      `file_offer` of this side, which carries no token. */
  datatype LastWord = Silence | Ready(token: seq<byte>) | Offered

  function LastAbout(outbox: seq<Sent>, id: string): LastWord {
    if outbox == [] then Silence else
    match outbox[|outbox| - 1].message
    case FileReady(i, token) => if i == id then Ready(token) else LastAbout(outbox[..|outbox| - 1], id)
    case OfferMade(offer) => if offer.transferId == id then Offered else LastAbout(outbox[..|outbox| - 1], id)
    case _ => LastAbout(outbox[..|outbox| - 1], id)
  }

  lemma LastAboutAppend(outbox: seq<Sent>, sent: Sent, id: string)
    ensures LastAbout(outbox + [sent], id) ==
      match sent.message
      case FileReady(i, token) => if i == id then Ready(token) else LastAbout(outbox, id)
      case OfferMade(offer) => if offer.transferId == id then Offered else LastAbout(outbox, id)
      case _ => LastAbout(outbox, id)
  {
    assert (outbox + [sent])[..|outbox|] == outbox;
  }

  /** The server would accept exactly the token the peer was last told. */
  ghost predicate TokenAgrees(b: Book, id: string) {
    id in b.sessions ==>
      match LastAbout(b.outbox, id)
      case Ready(token) => b.sessions[id].token == token
      case Offered => b.sessions[id].direction == FTS.DesktopDownloadToMobile
      case Silence => false
  }

  ghost predicate Consistent(b: Book) {
    forall id :: Agrees(b, id) && TokenAgrees(b, id)
  }

  lemma SendOneConsistent(b: Book, to: nat, f: Picked)
    requires Consistent(b)
    ensures Consistent(SendOne(b, to, f))
  {
    forall id
      ensures Agrees(SendOne(b, to, f), id) && TokenAgrees(SendOne(b, to, f), id)
    {
      assert Agrees(b, id) && TokenAgrees(b, id);
      if Usable(f) {
        LastAboutAppend(b.outbox, Sent(to, OfferMade(OfferFor(f))), id);
      }
    }
  }

  lemma {:induction false} SendAllConsistent(b: Book, to: nat, files: seq<Picked>)
    requires Consistent(b)
    ensures Consistent(SendAll(b, to, files))
    decreases |files|
  {
    if files != [] {
      SendOneConsistent(b, to, files[0]);
      SendAllConsistent(SendOne(b, to, files[0]), to, files[1..]);
    }
  }

  lemma HandleConsistent(b: Book, e: Event)
    requires Consistent(b)
    ensures Consistent(Handle(b, e))
  {
    if e.SendFiles? {
      SendAllConsistent(b, e.sessionId, e.files);
    } else {
      forall id
        ensures Agrees(Handle(b, e), id) && TokenAgrees(Handle(b, e), id)
      {
        assert Agrees(b, id) && TokenAgrees(b, id);
        HandleKeeps(b, e, id);
      }
    }
  }

  lemma HandleKeeps(b: Book, e: Event, id: string)
    requires !e.SendFiles? && Agrees(b, id) && TokenAgrees(b, id)
    ensures Agrees(Handle(b, e), id) && TokenAgrees(Handle(b, e), id)
  {
    match e
    case Offer(from, Some(offer), token, _) =>
      LastAboutAppend(b.outbox, Sent(from, FileAccept(offer.transferId)), id);
      var accept, ready := Sent(from, FileAccept(offer.transferId)), Sent(from, FileReady(offer.transferId, token));
      LastAboutAppend(b.outbox + [accept], ready, id);
      assert b.outbox + [accept] + [ready] == b.outbox + [accept, ready];
    case Accept(from, i, token) =>
      LastAboutAppend(b.outbox, Sent(from, FileReady(i, token)), id);
    case Finish(i, success, error) =>
      if i in b.offers {
        LastAboutAppend(b.outbox, CompleteReply(b.offers[i].sessionId, i, success, error), id);
      }
    case _ =>
  }

  /** Main result: after every sequence of events, stops included, an active offer and its session agree
      on size, hash and path, and the stored token is the one in the latest `file_ready`. */
  lemma {:induction false} AlwaysConsistent(b: Book, events: seq<Event>)
    requires Consistent(b)
    ensures Consistent(HandleAll(b, events))
    decreases |events|
  {
    if events != [] {
      HandleConsistent(b, events[0]);
      AlwaysConsistent(Handle(b, events[0]), events[1..]);
    }
  }

  // ---- Which active offers have a session ----

  /** Does the event put a session for `id` into the table? */
  predicate Registers(b: Book, e: Event, id: string) {
    match e
    case Offer(_, Some(offer), _, _) => offer.transferId == id
    case SendFiles(to, files) => to != 0 && CountSent(files, id) > 0
    case Accept(_, i, _) => i == id && id != "" && id in b.offers
    case _ => false
  }

  /** Has there been a stop since `id` was last registered? */
  function StoppedSince(b: Book, events: seq<Event>, id: string, stopped: bool): bool
    decreases |events|
  {
    if events == [] then stopped else
    StoppedSince(Handle(b, events[0]), events[1..], id, (stopped || events[0].Stop?) && !Registers(b, events[0], id))
  }

  lemma {:induction false} SendAllSessions(b: Book, to: nat, files: seq<Picked>, id: string)
    ensures id in SendAll(b, to, files).sessions <==> id in b.sessions || CountSent(files, id) > 0
    ensures id in SendAll(b, to, files).offers <==> id in b.offers || CountSent(files, id) > 0
    decreases |files|
  {
    if files != [] {
      SendAllSessions(SendOne(b, to, files[0]), to, files[1..], id);
    }
  }

  lemma HandleSession(b: Book, e: Event, id: string, stopped: bool)
    requires id in b.offers ==> (id in b.sessions <==> !stopped)
    ensures id in Handle(b, e).offers ==>
      (id in Handle(b, e).sessions <==> !((stopped || e.Stop?) && !Registers(b, e, id)))
  {
    if e.SendFiles? {
      SendAllSessions(b, e.sessionId, e.files, id);
    }
  }

  lemma {:induction false} SessionsInRuns(b: Book, events: seq<Event>, id: string, stopped: bool)
    requires id in b.offers ==> (id in b.sessions <==> !stopped)
    ensures id in HandleAll(b, events).offers ==>
      (id in HandleAll(b, events).sessions <==> !StoppedSince(b, events, id, stopped))
    decreases |events|
  {
    if events != [] {
      HandleSession(b, events[0], id, stopped);
      SessionsInRuns(Handle(b, events[0]), events[1..], id,
                     (stopped || events[0].Stop?) && !Registers(b, events[0], id));
    }
  }

  /** Stopping the server empties its table and leaves the offers: after every sequence of events an
      active offer has a session if and only if there was no stop since it was last registered. */
  lemma OfferHasSessionIff(events: seq<Event>, id: string)
    requires id in HandleAll(EMPTY, events).offers
    ensures id in HandleAll(EMPTY, events).sessions <==> !StoppedSince(EMPTY, events, id, false)
  {
    SessionsInRuns(EMPTY, events, id, false);
  }

  predicate NoStop(events: seq<Event>) {
    if events == [] then true else !events[0].Stop? && NoStop(events[1..])
  }

  lemma {:induction false} NoStopSince(b: Book, events: seq<Event>, id: string)
    requires NoStop(events)
    ensures !StoppedSince(b, events, id, false)
    decreases |events|
  {
    if events != [] {
      NoStopSince(Handle(b, events[0]), events[1..], id);
    }
  }

  /** In particular, as long as the server runs every active offer has a session. */
  lemma OffersHaveSessions(events: seq<Event>, id: string)
    requires NoStop(events) && id in HandleAll(EMPTY, events).offers
    ensures id in HandleAll(EMPTY, events).sessions
  {
    NoStopSince(EMPTY, events, id);
    OfferHasSessionIff(events, id);
  }

  // ---- When an upload stays an upload ----

  /** A `file_accept` for an active offer registers it again, whoever made the offer. */
  predicate Reregisters(b: Book, e: Event, id: string) {
    e.Accept? && Registers(b, e, id)
  }

  predicate AcceptedMeanwhile(b: Book, events: seq<Event>, id: string)
    decreases |events|
  {
    if events == [] then false else
    Reregisters(b, events[0], id) || AcceptedMeanwhile(Handle(b, events[0]), events[1..], id)
  }

  /** No new offer for `id`, and nothing that drops its session. */
  predicate LeavesSession(e: Event, id: string) {
    match e
    case Offer(_, Some(offer), _, _) => offer.transferId != id
    case SendFiles(to, files) => to == 0 || CountSent(files, id) == 0
    case Reject(i) => i != id
    case Cancel(i) => i != id
    case Stop => false
    case _ => true
  }

  predicate AllLeaveSession(events: seq<Event>, id: string) {
    if events == [] then true else LeavesSession(events[0], id) && AllLeaveSession(events[1..], id)
  }

  lemma {:induction false} SendAllLeaves(b: Book, to: nat, files: seq<Picked>, id: string)
    requires CountSent(files, id) == 0
    ensures var b' := SendAll(b, to, files);
      && (id in b.sessions ==> id in b'.sessions && b'.sessions[id] == b.sessions[id])
      && (id in b.offers <==> id in b'.offers)
      && (id in b.offers ==> b'.offers[id] == b.offers[id])
    decreases |files|
  {
    if files != [] {
      SendAllLeaves(SendOne(b, to, files[0]), to, files[1..], id);
    }
  }

  /** An upload session with no local path on record for it. */
  ghost predicate IsUpload(b: Book, id: string, target: Path) {
    && id in b.sessions && b.sessions[id].direction.MobileUploadToPc? && b.sessions[id].target == target
    && (id in b.offers ==> b.offers[id].filePath == NO_PATH)
  }

  /** A session that has lost its direction and its target. */
  ghost predicate IsLost(b: Book, id: string) {
    && id in b.sessions && b.sessions[id].direction.DesktopDownloadToMobile? && b.sessions[id].target == NO_PATH
    && (id in b.offers ==> b.offers[id].filePath == NO_PATH)
  }

  lemma UploadStep(b: Book, e: Event, id: string, target: Path)
    requires LeavesSession(e, id)
    ensures IsUpload(b, id, target) ==>
      if Reregisters(b, e, id) then IsLost(Handle(b, e), id) else IsUpload(Handle(b, e), id, target)
    ensures IsLost(b, id) ==> IsLost(Handle(b, e), id)
  {
    if e.SendFiles? && e.sessionId != 0 {
      SendAllLeaves(b, e.sessionId, e.files, id);
    }
  }

  lemma {:induction false} LostStaysLost(b: Book, events: seq<Event>, id: string)
    requires IsLost(b, id) && AllLeaveSession(events, id)
    ensures IsLost(HandleAll(b, events), id)
    decreases |events|
  {
    if events != [] {
      UploadStep(b, events[0], id, NO_PATH);
      LostStaysLost(Handle(b, events[0]), events[1..], id);
    }
  }

  /** As long as its session is not replaced by a new offer or dropped, an upload keeps its direction and
      target if and only if no `file_accept` for its id arrives while the offer is active. If one does,
      the session is a download of the empty path from then on. */
  lemma {:induction false} UploadKeptIff(b: Book, events: seq<Event>, id: string, target: Path)
    requires IsUpload(b, id, target) && AllLeaveSession(events, id)
    ensures if AcceptedMeanwhile(b, events, id) then IsLost(HandleAll(b, events), id)
            else IsUpload(HandleAll(b, events), id, target)
    decreases |events|
  {
    if events != [] {
      UploadStep(b, events[0], id, target);
      if Reregisters(b, events[0], id) {
        LostStaysLost(Handle(b, events[0]), events[1..], id);
      } else {
        UploadKeptIff(Handle(b, events[0]), events[1..], id, target);
      }
    }
  }

  /** So two messages of the phone are enough, at any time: it offers a file, and accepts its own offer. */
  lemma AcceptOfOwnOffer(b: Book, from: nat, offer: FileOffer, token: seq<byte>, token2: seq<byte>, target: Path)
    requires offer.transferId != ""
    ensures var made, accepted := Offer(from, Some(offer), token, target), Accept(from, offer.transferId, token2);
      && IsUpload(HandleAll(b, [made]), offer.transferId, target)
      && IsLost(HandleAll(b, [made, accepted]), offer.transferId)
  {
    var made, accepted := Offer(from, Some(offer), token, target), Accept(from, offer.transferId, token2);
    var b' := Handle(b, made);
    assert [made][1..] == [] && [accepted][1..] == [] && [made, accepted][1..] == [accepted];
    assert HandleAll(b, [made]) == b';
    assert !AcceptedMeanwhile(Handle(b', accepted), [], offer.transferId);
    assert AcceptedMeanwhile(b', [accepted], offer.transferId);
    assert AllLeaveSession([accepted][1..], offer.transferId);
    UploadKeptIff(b', [accepted], offer.transferId, target);
  }

  // ---- Replies go to the peer of the transfer ----

  predicate Introduces(m: Message, id: string) {
    match m
    case FileAccept(i) => i == id
    case OfferMade(offer) => offer.transferId == id
    case _ => false
  }

  /** Session `to` has been sent a `file_accept` or a `file_offer` for this id. */
  ghost predicate Told(outbox: seq<Sent>, to: nat, id: string) {
    exists j :: 0 <= j < |outbox| && outbox[j].to == to && Introduces(outbox[j].message, id)
  }

  ghost predicate Introduced(outbox: seq<Sent>, id: string) {
    exists j :: 0 <= j < |outbox| && Introduces(outbox[j].message, id)
  }

  /** Every `file_complete` so far went to a session that had been told of the transfer before, every
      `file_ready` came after such a message, and every active offer is on record for such a session. */
  ghost predicate Addressed(b: Book) {
    && (forall i | 0 <= i < |b.outbox| && b.outbox[i].message.FileComplete? ::
          Told(b.outbox[..i], b.outbox[i].to, b.outbox[i].message.transferId))
    && (forall i | 0 <= i < |b.outbox| && b.outbox[i].message.FileReady? ::
          Introduced(b.outbox[..i], b.outbox[i].message.transferId))
    && (forall id | id in b.offers :: Told(b.outbox, b.offers[id].sessionId, id))
  }

  lemma ToldStays(outbox: seq<Sent>, more: seq<Sent>, to: nat, id: string)
    requires Told(outbox, to, id)
    ensures Told(outbox + more, to, id)
  {
    var j :| 0 <= j < |outbox| && outbox[j].to == to && Introduces(outbox[j].message, id);
    assert (outbox + more)[j] == outbox[j];
  }

  lemma AddressedSend(b: Book, sent: Sent, b': Book)
    requires Addressed(b) && b'.outbox == b.outbox + [sent]
    requires sent.message.FileComplete? ==> Told(b.outbox, sent.to, sent.message.transferId)
    requires sent.message.FileReady? ==> Introduced(b.outbox, sent.message.transferId)
    requires forall id | id in b'.offers ::
      || (id in b.offers && b'.offers[id] == b.offers[id])
      || (Introduces(sent.message, id) && b'.offers[id].sessionId == sent.to)
    ensures Addressed(b')
  {
    forall i | 0 <= i < |b'.outbox| && b'.outbox[i].message.FileComplete?
      ensures Told(b'.outbox[..i], b'.outbox[i].to, b'.outbox[i].message.transferId)
    {
      assert b'.outbox[..i] == b.outbox[..i];
    }
    forall i | 0 <= i < |b'.outbox| && b'.outbox[i].message.FileReady?
      ensures Introduced(b'.outbox[..i], b'.outbox[i].message.transferId)
    {
      assert b'.outbox[..i] == b.outbox[..i];
    }
    forall id | id in b'.offers
      ensures Told(b'.outbox, b'.offers[id].sessionId, id)
    {
      if id in b.offers && b'.offers[id] == b.offers[id] {
        ToldStays(b.outbox, [sent], b.offers[id].sessionId, id);
      } else {
        assert b'.outbox[|b.outbox|] == sent;
      }
    }
  }

  lemma {:induction false} SendAllAddressed(b: Book, to: nat, files: seq<Picked>)
    requires Addressed(b)
    ensures Addressed(SendAll(b, to, files))
    decreases |files|
  {
    if files != [] {
      if Usable(files[0]) {
        AddressedSend(b, Sent(to, OfferMade(OfferFor(files[0]))), SendOne(b, to, files[0]));
      }
      SendAllAddressed(SendOne(b, to, files[0]), to, files[1..]);
    }
  }

  lemma HandleAddressed(b: Book, e: Event)
    requires Addressed(b)
    ensures Addressed(Handle(b, e))
  {
    match e
    case Offer(from, Some(offer), token, _) =>
      var accept, ready := Sent(from, FileAccept(offer.transferId)), Sent(from, FileReady(offer.transferId, token));
      var m := Handle(b, e).(outbox := b.outbox + [accept]);
      AddressedSend(b, accept, m);
      assert Introduces(m.outbox[|b.outbox|].message, offer.transferId);
      assert b.outbox + [accept] + [ready] == b.outbox + [accept, ready];
      AddressedSend(m, ready, Handle(b, e));
    case SendFiles(to, files) => SendAllAddressed(b, to, files);
    case Accept(from, id, token) =>
      if id != "" && id in b.offers {
        assert Told(b.outbox, b.offers[id].sessionId, id);
        AddressedSend(b, Sent(from, FileReady(id, token)), Handle(b, e));
      }
    case Finish(id, success, error) =>
      if id in b.offers && b.offers[id].sessionId != 0 {
        AddressedSend(b, CompleteReply(b.offers[id].sessionId, id, success, error), Handle(b, e));
      }
    case _ =>
  }

  /** After every sequence of events each `file_complete` has gone to a session that was told of that
      transfer by `file_accept` or `file_offer` before, and each `file_ready` came after such a message. */
  lemma {:induction false} RepliesAreAddressed(b: Book, events: seq<Event>)
    requires Addressed(b)
    ensures Addressed(HandleAll(b, events))
    decreases |events|
  {
    if events != [] {
      HandleAddressed(b, events[0]);
      RepliesAreAddressed(Handle(b, events[0]), events[1..]);
    }
  }

  // ---- Offers are conserved ----

  function One(c: bool): nat {
    if c then 1 else 0
  }

  function CountSent(files: seq<Picked>, id: string): nat {
    if files == [] then 0 else
    One(Usable(files[0]) && UuidText(files[0].uuid) == id) + CountSent(files[1..], id)
  }

  /** How often an event puts `id` among the active offers. */
  function Insertions(e: Event, id: string): nat {
    match e
    case Offer(_, Some(offer), _, _) => One(offer.transferId == id)
    case SendFiles(to, files) => if to == 0 then 0 else CountSent(files, id)
    case _ => 0
  }

  /** How many of those replace an entry that is still active. */
  function Replacements(b: Book, e: Event, id: string): nat {
    if Insertions(e, id) == 0 then 0 else Insertions(e, id) - 1 + One(id in b.offers)
  }

  /** Does the event close an active entry: a finish, reject, complete or cancel for it? */
  predicate Closes(b: Book, e: Event, id: string) {
    id in b.offers &&
    match e
    case Reject(i) => i == id && i != ""
    case Cancel(i) => i == id && i != ""
    case Complete(i, _, _) => i == id
    case Finish(i, _, _) => i == id
    case _ => false
  }

  /** Totals over a run: insertions, replacements, closings. */
  datatype Tally = Tally(insertions: nat, replacements: nat, closings: nat)

  function TallyOf(b: Book, events: seq<Event>, id: string): Tally
    decreases |events|
  {
    if events == [] then Tally(0, 0, 0) else
    var t, e := TallyOf(Handle(b, events[0]), events[1..], id), events[0];
    Tally(t.insertions + Insertions(e, id), t.replacements + Replacements(b, e, id), t.closings + One(Closes(b, e, id)))
  }

  function Replies(outbox: seq<Sent>, id: string): nat {
    if outbox == [] then 0 else
    var m := outbox[|outbox| - 1].message;
    Replies(outbox[..|outbox| - 1], id) + One(m.FileComplete? && m.transferId == id)
  }

  lemma RepliesAppend(outbox: seq<Sent>, sent: Sent, id: string)
    ensures Replies(outbox + [sent], id)
         == Replies(outbox, id) + One(sent.message.FileComplete? && sent.message.transferId == id)
  {
    assert (outbox + [sent])[..|outbox|] == outbox;
  }

  lemma {:induction false} SendAllCounts(b: Book, to: nat, files: seq<Picked>, id: string)
    ensures id in SendAll(b, to, files).offers <==> id in b.offers || CountSent(files, id) > 0
    ensures Replies(SendAll(b, to, files).outbox, id) == Replies(b.outbox, id)
    decreases |files|
  {
    if files != [] {
      SendAllCounts(SendOne(b, to, files[0]), to, files[1..], id);
      if Usable(files[0]) {
        RepliesAppend(b.outbox, Sent(to, OfferMade(OfferFor(files[0]))), id);
      }
    }
  }

  lemma NoReplyToAnOffer(outbox: seq<Sent>, accept: Sent, ready: Sent, id: string)
    requires !accept.message.FileComplete? && !ready.message.FileComplete?
    ensures Replies(outbox + [accept, ready], id) == Replies(outbox, id)
  {
    RepliesAppend(outbox, accept, id);
    RepliesAppend(outbox + [accept], ready, id);
    assert outbox + [accept] + [ready] == outbox + [accept, ready];
  }

  /** One event's ledger entry. */
  lemma HandleCounts(b: Book, e: Event, id: string)
    ensures One(id in b.offers) + Insertions(e, id)
         == Replacements(b, e, id) + One(Closes(b, e, id)) + One(id in Handle(b, e).offers)
    ensures Replies(Handle(b, e).outbox, id) <= Replies(b.outbox, id) + One(Closes(b, e, id))
  {
    match e
    case Offer(from, Some(offer), token, _) =>
      NoReplyToAnOffer(b.outbox, Sent(from, FileAccept(offer.transferId)),
                       Sent(from, FileReady(offer.transferId, token)), id);
    case SendFiles(to, files) => SendAllCounts(b, to, files, id);
    case Accept(from, i, token) => RepliesAppend(b.outbox, Sent(from, FileReady(i, token)), id);
    case Finish(i, success, error) =>
      if i in b.offers {
        RepliesAppend(b.outbox, CompleteReply(b.offers[i].sessionId, i, success, error), id);
      }
    case _ =>
  }

  /** Main result: over every run each insertion of an id is closed, replaced or still active, exactly
      once; so the server's `file_complete` replies never outnumber the insertions. */
  lemma {:induction false} OffersAreConserved(b: Book, events: seq<Event>, id: string)
    ensures var t, end := TallyOf(b, events, id), HandleAll(b, events);
      && One(id in b.offers) + t.insertions == t.replacements + t.closings + One(id in end.offers)
      && Replies(end.outbox, id) <= Replies(b.outbox, id) + t.closings
    decreases |events|
  {
    if events != [] {
      HandleCounts(b, events[0], id);
      OffersAreConserved(Handle(b, events[0]), events[1..], id);
    }
  }

  lemma RepliesNeverOutnumberOffers(events: seq<Event>, id: string)
    ensures Replies(HandleAll(EMPTY, events).outbox, id) <= TallyOf(EMPTY, events, id).insertions
  {
    OffersAreConserved(EMPTY, events, id);
  }

  // ---- What the peer and the user are told ----

  /** Is this an answer about the transfer `id`: accepted, ready, or ended? */
  predicate IsAnswer(m: Message, id: string) {
    match m
    case FileAccept(i) => i == id
    case FileReady(i, _) => i == id
    case FileComplete(i, _, _) => i == id
    case OfferMade(_) => false
  }

  /** The answers about `id` that went out, in order. */
  function AnswersIn(outbox: seq<Sent>, id: string): seq<Sent> {
    if outbox == [] then [] else
    var last := outbox[|outbox| - 1];
    AnswersIn(outbox[..|outbox| - 1], id) + if IsAnswer(last.message, id) then [last] else []
  }

  lemma AnswersAppend(outbox: seq<Sent>, sent: Sent, id: string)
    ensures AnswersIn(outbox + [sent], id) == AnswersIn(outbox, id) + if IsAnswer(sent.message, id) then [sent] else []
  {
    assert (outbox + [sent])[..|outbox|] == outbox;
  }

  /** The answers that one event calls for. An offer of `id` is accepted and made ready, both to the session
      it came from; an accept that meets an active offer is made ready to the session it came from; a finish
      that meets an active offer of a session is told to that session, with the server's verdict, and with
      its error if it failed. Nothing else is answered. */
  function AnswersDue(b: Book, e: Event, id: string): seq<Sent> {
    match e
    case Offer(from, Some(offer), token, _) =>
      if offer.transferId == id then [Sent(from, FileAccept(id)), Sent(from, FileReady(id, token))] else []
    case Accept(from, i, token) =>
      if i == id && id != "" && id in b.offers then [Sent(from, FileReady(id, token))] else []
    case Finish(i, true, _) =>
      if i == id && id in b.offers && b.offers[id].sessionId != 0
      then [Sent(b.offers[id].sessionId, FileComplete(id, true, ""))] else []
    case Finish(i, false, error) =>
      if i == id && id in b.offers && b.offers[id].sessionId != 0
      then [Sent(b.offers[id].sessionId, FileComplete(id, false, error))] else []
    case _ => []
  }

  function AllAnswersDue(b: Book, events: seq<Event>, id: string): seq<Sent>
    decreases |events|
  {
    if events == [] then [] else
    AnswersDue(b, events[0], id) + AllAnswersDue(Handle(b, events[0]), events[1..], id)
  }

  lemma {:induction false} SendAllAnswers(b: Book, to: nat, files: seq<Picked>, id: string)
    ensures AnswersIn(SendAll(b, to, files).outbox, id) == AnswersIn(b.outbox, id)
    decreases |files|
  {
    if files != [] {
      SendAllAnswers(SendOne(b, to, files[0]), to, files[1..], id);
      if Usable(files[0]) {
        AnswersAppend(b.outbox, Sent(to, OfferMade(OfferFor(files[0]))), id);
      }
    }
  }

  lemma AnswersToAnOffer(outbox: seq<Sent>, accept: Sent, ready: Sent, id: string)
    requires IsAnswer(accept.message, id) <==> IsAnswer(ready.message, id)
    ensures AnswersIn(outbox + [accept, ready], id)
         == AnswersIn(outbox, id) + if IsAnswer(ready.message, id) then [accept, ready] else []
  {
    AnswersAppend(outbox, accept, id);
    AnswersAppend(outbox + [accept], ready, id);
    assert outbox + [accept] + [ready] == outbox + [accept, ready];
  }

  lemma OfferAnswers(b: Book, e: Event, id: string)
    requires e.Offer? && e.offer.Some?
    ensures AnswersIn(Handle(b, e).outbox, id) == AnswersIn(b.outbox, id) + AnswersDue(b, e, id)
  {
    var i := e.offer.value.transferId;
    AnswersToAnOffer(b.outbox, Sent(e.sessionId, FileAccept(i)), Sent(e.sessionId, FileReady(i, e.token)), id);
  }

  lemma AcceptAnswers(b: Book, e: Event, id: string)
    requires e.Accept?
    ensures AnswersIn(Handle(b, e).outbox, id) == AnswersIn(b.outbox, id) + AnswersDue(b, e, id)
  {
    AnswersAppend(b.outbox, Sent(e.sessionId, FileReady(e.transferId, e.token)), id);
  }

  lemma FinishAnswers(b: Book, e: Event, id: string)
    requires e.Finish?
    ensures AnswersIn(Handle(b, e).outbox, id) == AnswersIn(b.outbox, id) + AnswersDue(b, e, id)
  {
    var i := e.transferId;
    if i in b.offers {
      AnswersAppend(b.outbox, CompleteReply(b.offers[i].sessionId, i, e.success, e.error), id);
    }
  }

  lemma HandleAnswers(b: Book, e: Event, id: string)
    ensures AnswersIn(Handle(b, e).outbox, id) == AnswersIn(b.outbox, id) + AnswersDue(b, e, id)
  {
    match e
    case Offer(_, Some(_), _, _) => OfferAnswers(b, e, id);
    case SendFiles(to, files) => SendAllAnswers(b, to, files, id);
    case Accept(_, _, _) => AcceptAnswers(b, e, id);
    case Finish(_, _, _) => FinishAnswers(b, e, id);
    case _ =>
  }

  /** Main result on the replies: over every sequence of events, what the phone has been told about a
      transfer is exactly what the events call for, in order: to the right session, with the right token,
      and with the verdict the server gave. */
  lemma {:induction false} AnswersAreSent(b: Book, events: seq<Event>, id: string)
    ensures AnswersIn(HandleAll(b, events).outbox, id) == AnswersIn(b.outbox, id) + AllAnswersDue(b, events, id)
    decreases |events|
  {
    if events == [] {
      assert AnswersIn(b.outbox, id) + [] == AnswersIn(b.outbox, id);
    } else {
      var e, b' := events[0], Handle(b, events[0]);
      HandleAnswers(b, e, id);
      AnswersAreSent(b', events[1..], id);
      Regroup(AnswersIn(b.outbox, id), AnswersDue(b, e, id), AllAnswersDue(b', events[1..], id));
    }
  }

  lemma Regroup<T>(a: seq<T>, b: seq<T>, c: seq<T>)
    ensures a + b + c == a + (b + c)
  {
  }

  /** The transferFinished signals about `id`, in order. */
  function SignalsIn(finished: seq<Finished>, id: string): seq<Finished> {
    if finished == [] then [] else
    var last := finished[|finished| - 1];
    SignalsIn(finished[..|finished| - 1], id) + if last.transferId == id then [last] else []
  }

  lemma SignalsAppend(finished: seq<Finished>, last: Finished, id: string)
    ensures SignalsIn(finished + [last], id) == SignalsIn(finished, id) + if last.transferId == id then [last] else []
  {
    assert (finished + [last])[..|finished|] == finished;
  }

  function NameOf(b: Book, id: string): string {
    if id in b.offers then b.offers[id].offer.name else ""
  }

  /** One for every finish of the server, and one for every `file_complete` of the phone that meets an
      active offer, with the name of the offer, if any, and the verdict as it came. */
  function SignalDue(b: Book, e: Event, id: string): seq<Finished> {
    match e
    case Finish(i, success, error) => if i == id then [Finished(id, NameOf(b, id), success, error)] else []
    case Complete(i, ok, error) =>
      if i == id && id in b.offers then [Finished(id, NameOf(b, id), ok, error)] else []
    case _ => []
  }

  function SignalsDue(b: Book, events: seq<Event>, id: string): seq<Finished>
    decreases |events|
  {
    if events == [] then [] else
    SignalDue(b, events[0], id) + SignalsDue(Handle(b, events[0]), events[1..], id)
  }

  lemma {:induction false} SendAllSignals(b: Book, to: nat, files: seq<Picked>)
    ensures SendAll(b, to, files).finished == b.finished
    decreases |files|
  {
    if files != [] {
      SendAllSignals(SendOne(b, to, files[0]), to, files[1..]);
    }
  }

  lemma HandleSignals(b: Book, e: Event, id: string)
    ensures SignalsIn(Handle(b, e).finished, id) == SignalsIn(b.finished, id) + SignalDue(b, e, id)
  {
    match e
    case SendFiles(to, files) => SendAllSignals(b, to, files);
    case Finish(i, success, error) => SignalsAppend(b.finished, Finished(i, NameOf(b, i), success, error), id);
    case Complete(i, ok, error) => SignalsAppend(b.finished, Finished(i, NameOf(b, i), ok, error), id);
    case _ =>
  }

  /** The signals to the user, likewise. */
  lemma {:induction false} SignalsAreGiven(b: Book, events: seq<Event>, id: string)
    ensures SignalsIn(HandleAll(b, events).finished, id) == SignalsIn(b.finished, id) + SignalsDue(b, events, id)
    decreases |events|
  {
    if events == [] {
      assert SignalsIn(b.finished, id) + [] == SignalsIn(b.finished, id);
    } else {
      HandleSignals(b, events[0], id);
      SignalsAreGiven(Handle(b, events[0]), events[1..], id);
      Regroup(SignalsIn(b.finished, id), SignalDue(b, events[0], id),
              SignalsDue(Handle(b, events[0]), events[1..], id));
    }
  }

  // ---- What is offered to the phone ----

  /** The files that can be sent: not a directory, readable. */
  function Sendables(files: seq<Picked>): seq<Picked> {
    if files == [] then [] else
    (if files[0].isFile && files[0].opens && |files[0].uuid| == 16 then [files[0]] else []) + Sendables(files[1..])
  }

  /** The offer describes the file, under an id that spells its random bytes. */
  ghost predicate Describes(sent: Sent, to: nat, f: Picked) {
    && sent.to == to && sent.message.OfferMade?
    && var o := sent.message.offer;
       && o.name == f.path.name && o.size == f.size && o.sha256 == f.sha256
       && o.mime == "application/octet-stream"
       && |o.transferId| == 36 && Answers(o.transferId, f.uuid)
  }

  ghost predicate DescribeAll(made: seq<Sent>, to: nat, files: seq<Picked>) {
    |made| == |files| && forall i | 0 <= i < |files| :: Describes(made[i], to, files[i])
  }

  /** Sending files makes one offer for each that can be sent, in order, and nothing else. */
  lemma {:induction false} EachFileIsOffered(b: Book, to: nat, files: seq<Picked>) returns (made: seq<Sent>)
    ensures SendAll(b, to, files).outbox == b.outbox + made
    ensures DescribeAll(made, to, Sendables(files))
    decreases |files|
  {
    if files == [] {
      made := [];
    } else {
      made := EachFileIsOffered(SendOne(b, to, files[0]), to, files[1..]);
      if Usable(files[0]) {
        var first := Sent(to, OfferMade(OfferFor(files[0])));
        OneOffer(to, files[0]);
        OneMoreOffer(first, made, to, files[0], Sendables(files[1..]));
        Regroup(b.outbox, [first], made);
        made := [first] + made;
      }
    }
  }

  lemma OneMoreOffer(first: Sent, made: seq<Sent>, to: nat, f: Picked, files: seq<Picked>)
    requires Describes(first, to, f) && DescribeAll(made, to, files)
    ensures DescribeAll([first] + made, to, [f] + files)
  {
  }

  lemma OneOffer(to: nat, f: Picked)
    requires Usable(f)
    ensures Describes(Sent(to, OfferMade(OfferFor(f))), to, f)
  {
    CanonicalAnswers(f.uuid);
    UuidTextShape(f.uuid);
  }

  /** And the server has the file under that id, unless a later file has the same id. */
  lemma {:induction false} EachFileIsRegistered(b: Book, to: nat, files: seq<Picked>, i: nat)
    requires i < |files| && Usable(files[i]) && CountSent(files[i + 1..], UuidText(files[i].uuid)) == 0
    ensures var f, b' := files[i], SendAll(b, to, files);
      && UuidText(f.uuid) in b'.sessions && UuidText(f.uuid) in b'.offers
      && b'.sessions[UuidText(f.uuid)] == Registered(f.token, f.path, f.size, f.sha256, FTS.DesktopDownloadToMobile)
      && b'.offers[UuidText(f.uuid)].sessionId == to && b'.offers[UuidText(f.uuid)].filePath == f.path
    decreases |files|
  {
    if i > 0 {
      assert files[1..][i..] == files[i + 1..];
      EachFileIsRegistered(SendOne(b, to, files[0]), to, files[1..], i - 1);
    } else {
      SendAllLeaves(SendOne(b, to, files[0]), to, files[1..], UuidText(files[0].uuid));
    }
  }

  // ---- Rejected and cancelled transfers ----

  /** No offer for `id` among these events. */
  predicate NoOfferOf(events: seq<Event>, id: string) {
    if events == [] then true else
    && (match events[0]
        case Offer(_, Some(offer), _, _) => offer.transferId != id
        case SendFiles(to, files) => to == 0 || CountSent(files, id) == 0
        case _ => true)
    && NoOfferOf(events[1..], id)
  }

  lemma {:induction false} SendAllAddsNone(b: Book, to: nat, files: seq<Picked>, id: string)
    requires CountSent(files, id) == 0 && id !in b.offers && id !in b.sessions
    ensures id !in SendAll(b, to, files).offers && id !in SendAll(b, to, files).sessions
    decreases |files|
  {
    if files != [] {
      SendAllAddsNone(SendOne(b, to, files[0]), to, files[1..], id);
    }
  }

  lemma {:induction false} StaysDropped(b: Book, events: seq<Event>, id: string)
    requires id !in b.offers && id !in b.sessions && NoOfferOf(events, id)
    ensures id !in HandleAll(b, events).offers && id !in HandleAll(b, events).sessions
    decreases |events|
  {
    if events != [] {
      if events[0].SendFiles? && events[0].sessionId != 0 {
        SendAllAddsNone(b, events[0].sessionId, events[0].files, id);
      }
      StaysDropped(Handle(b, events[0]), events[1..], id);
    }
  }

  /** A reject or cancel is final: until a new offer of the id there is neither an active offer nor a
      session, whatever else happens; in particular an accept does not bring it back. */
  lemma DropIsFinal(b: Book, drop: Event, events: seq<Event>, id: string)
    requires id != "" && (drop == Reject(id) || drop == Cancel(id)) && NoOfferOf(events, id)
    ensures var b' := HandleAll(b, [drop] + events); id !in b'.offers && id !in b'.sessions
  {
    assert ([drop] + events)[1..] == events;
    StaysDropped(Handle(b, drop), events, id);
  }
}
