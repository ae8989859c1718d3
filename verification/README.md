# Iriseus: verified models of the transfer, stream and session cores

Iriseus is a desktop peer for a phone: it receives and sends files over a framed TCP channel, shows the
phone's video as a virtual camera, and talks to the phone over a WebSocket. This project models the six
stateful pieces of it in Dafny and proves what they keep, over all inputs, all runs and all
interleavings of their threads.

`dafny verify dfyconfig.toml` checks everything.

| file | what it models |
|---|---|
| `Wire.dfy` | big-endian lengths, length-prefixed frames, a socket that delivers bytes in pieces of any size |
| `TransferLoops.dfy` | what the upload receive loop and the download send loop compute, and their round trip |
| `FinalName.dfy` | the disk and the room on it, `.part` paths, numbered candidate names, the first free name, name clashes |
| `Handshake.dfy` | the 16-byte id as text and its lookup among registered ids |
| `FileTransferServer.dfy` | the session table and one connection from handshake to report, method by method |
| `UploadInterleavings.dfy` | the state machine: any number of uploads interleaved with cancelling, stopping, registering and other programs |
| `UploadReports.dfy` | what uploads report and how long they take, in every run |
| `UploadStops.dfy` | stopping and cancelling from their first action to their last, and how soon the uploads end |
| `UploadFolder.dfy` | what they do to the folder, in every run that keeps two rules the code does not enforce |
| `UploadAlone.dfy` | an upload that nobody disturbs does what the method-by-method account says |
| `UploadClashes.dfy` | what goes wrong without the rules and on a full disk, and exactly when it can |
| `TransferBook.dfy`, `FileTransferManager.dfy` | the manager's offers and the server's table across all events; the handlers |
| `StreamReceiver.dfy` | the NALU queue, its condition variable and shutdown |
| `WsSession.dfy` | the outgoing message queue |
| `CanvasGeometry.dfy`, `VideoDecoder.dfy` | letterbox and pillarbox arithmetic; clearing, drawing and mirroring the canvas in place |
| `AdbManager.dfy` | the device poll and its attach and detach callbacks |

## How the model is built

Code that changes state is a class or a method over it, proved against a specification function; what
the code promises is then proved about that function. Code run by several threads is also a state
machine with one action for each shared access: `UploadInterleavings.Turn` follows `handleConnection`
access by access, `StreamReceiver.Step` the critical sections and the wait, `WsSession.Step` the mutex
sections of `send` and `doWrite`.

Assumptions, all visible in the definitions:

- SHA-256 is a function parameter of the concatenated updates; random tokens and ids are parameters.
- `QFile::rename` fails when the destination exists or the source does not, and may fail otherwise;
  `QFile::remove` may fail while an upload has the file open and succeeds otherwise. Both are atomic.
- The volume takes a bounded number of bytes. A write that does not fit keeps its beginning and leaves
  the output stream bad, so that later writes of the stream do nothing; writes are not buffered.
- Other programs may use up or free room at any time and may create files under any free name except the
  `.part` path of a registered session. They do not delete or overwrite files in the download folder.
- A connection either delivers its bytes, in pieces of any size, or ends; an error is an end.
- Paths are a directory and a name, compared exactly.
- Aspect ratios are exact fractions, and one canvas element is one 24-bit pixel (the byte indices have
  a lemma of their own).
- Byte shifts and masks are written as division and remainder. The 64-bit receive counter wraps
  explicitly.
- The manager's handlers are atomic, although the code has no lock around its offers.

## Findings about the code

- A full disk goes unnoticed. Nobody looks at the state of the output stream, so an upload that does not
  fit is reported saved although its file is only the beginning of it (`FullDiskReportsSuccess`,
  `FullDiskSavesLess`). A saved file is the payload if and only if the announced size fits
  (`SavedFileIsThePayloadIff`), with other uploads at work if and only if each write found room
  (`UploadFolder.SavedFile`).
- Two uploads can spoil each other's results, and exactly then: their targets are equal, or some name
  tried for one is the `.part` path of the other (`ClashesSpoilIff`; `ClashShape` says which names these
  are). The code enforces neither. A target that is merely named `x.part` does no harm. What holds
  when the callers avoid both is in `UploadFolder`; what holds anyway is in `UploadReports`.
- Cancelling or stopping removes the `.part` path next to the target of every session, downloads
  included; that is why `FolderAccount` excepts the `.part` paths of registered sessions.
- A `file_accept` for an offer that the phone itself made turns the upload into a download of the empty
  path; an upload keeps its target exactly if none arrives (`UploadKeptIff`, `AcceptOfOwnOffer`).
- `stop` empties the server's table but not the manager's offers: an active offer has a session exactly
  if there was no stop since it was last registered (`OfferHasSessionIff`).
- The receive counter cannot wrap exactly for announced sizes up to 2^64 - 2^20 (`NoWrapBound`).
- A canvas side of 1 is too small for the clamped picture side of 2: pictures of all sizes fit exactly
  on canvases of at least 2 by 2 (`FitsEverywhereIff`).
- After a write error the session's queue keeps growing but nothing is ever written again.

## Model

| member | source | states |
|---|---|---|
| Wire.BigEndianRoundTrip | src/core/FileTransferServer.cpp:333-338 | every 32-bit length survives being written as four big-endian bytes and read back |
| Wire.BigEndianOnto | src/core/FileTransferServer.cpp:235-238 | every four received bytes are the encoding of the length they announce |
| Wire.MostSignificantFirst | src/core/FileTransferServer.cpp:235-238 | the first of the four bytes is the most significant: the last counts for itself, and the ones in front of it 256 times as much as they would count there |
| Wire.SentBytes | src/core/FileTransferServer.cpp:335-338 | the four bytes sent for a length, weighted 2^24, 2^16, 2^8 and 1, add up to it |
| Wire.OrderIsLexicographic | src/core/FileTransferServer.cpp:333-338 | of two lengths the smaller one has the encoding that comes first in a dictionary |
| Wire.FrameByBytes | src/core/FileTransferServer.cpp:229-250 | four bytes and what follows them, byte by byte: a length of 0 or above the limit is refused, a longer one than what follows is cut short, otherwise that many bytes are the payload |
| Wire.NextFrameInvertsFramed | src/core/FileTransferServer.cpp:229-250 | the reader finds a whole frame with a given payload and rest if and only if the stream is that frame's encoding followed by that rest and the length is legal |
| Wire.Socket.ReadExact | src/core/FileTransferServer.cpp:120-130 | for every way the network splits the stream: yields the next `size` bytes and leaves the rest, or fails exactly when the stream is shorter |
| Wire.Socket.ReadFrame | src/core/FileTransferServer.cpp:229-250 | length, range check and payload together read exactly the next frame of the byte stream, whatever the pieces |
| Wire.Socket.Write | src/core/FileTransferServer.cpp:340-345 | a write is taken whole, or cut off at what the peer accepts and reported as an error |
| TransferLoops.NoWrapBound | src/core/FileTransferServer.cpp:223-256 | the 64-bit counter never wraps if and only if the announced size is at most 2^64 - 2^20 |
| TransferLoops.ReceiveBounds | src/core/FileTransferServer.cpp:223-261 | the counter is the number of bytes written, the `.part` file stays within expectedSize - 1 + 1048576 bytes, progress values rise strictly and end at the counter |
| TransferLoops.ReceiveByBytes | src/core/FileTransferServer.cpp:229-261 | one turn of the loop from the four length bytes on, limits 1 and 1048576 included: an error, or that many bytes received and the counter reported |
| TransferLoops.FramesComplete | src/core/FileTransferServer.cpp:228-261 | a stream that starts with legal frames adding up to the size is received completely, and the payload is theirs |
| TransferLoops.CompleteHasFrames | src/core/FileTransferServer.cpp:228-272 | a completed reception exhibits such frames at the start of its stream |
| TransferLoops.UploadCompletesIff | src/core/FileTransferServer.cpp:220-272 | an undisturbed reception completes if and only if the stream starts with frames of 1 to 1048576 bytes adding up exactly to the size at a frame boundary; later bytes play no part, a zero size needs no frame |
| TransferLoops.ChunksCoverTheFile | src/core/FileTransferServer.cpp:327-334 | the pieces the sender reads are the first expectedSize bytes in order, each of 1 to 262144 bytes |
| TransferLoops.SendByBytes | src/core/FileTransferServer.cpp:327-347 | one turn of the send loop: four bytes that count the piece, most significant first, then the piece, of 262144 bytes unless less is wanted or left |
| TransferLoops.RoundTrip | src/core/FileTransferServer.cpp:327-353 | the sender's output for any file and any size up to the file's length, followed by anything, is received as exactly the first expectedSize bytes |
| TransferLoops.ShortFileNeverCompletes | src/core/FileTransferServer.cpp:327-331 | when the file is shorter than announced, the receiver runs out of frames and fails |
| FinalName.DecimalRoundTrip | src/core/FileTransferServer.cpp:298 | the printed counter determines the number |
| FinalName.DecimalShape | src/core/FileTransferServer.cpp:298 | the counter is printed in digits without a leading zero |
| FinalName.NumberedNames | src/core/FileTransferServer.cpp:295-301 | the numbered name of "base.ext" is "base (k).ext", and of "base." it is "base (k)", for every base |
| FinalName.NumberedPlainName | src/core/FileTransferServer.cpp:295-301 | the numbered name of a name without a dot is "name (k)" |
| FinalName.BytesAreConserved | src/core/FileTransferServer.cpp:212-310 | opening, writing, removing and renaming a file neither gain nor lose a byte of the volume |
| FinalName.CandidatesDiffer | src/core/FileTransferServer.cpp:291-303 | no two names the collision loop tries are equal |
| FinalName.NoSelfClash | src/core/FileTransferServer.cpp:81-301 | no name tried for a target is that target's own `.part` path |
| FinalName.ClashShape | src/core/FileTransferServer.cpp:81-301 | a saved file for `a` can land on the `.part` path of `b` if and only if `a` is that path, or `a` is "base.part" and `b` is "base (k)" in the same folder |
| FinalName.FirstFreeFrom | src/core/FileTransferServer.cpp:291-303 | for every folder and target a first free name exists within the number of names plus one probes |
| FinalName.CandidateIsNoPart | src/core/FileTransferServer.cpp:295-301 | a numbered name ends in `.part` only when the target does |
| FinalName.PartsOfDistinctTargets | src/core/FileTransferServer.cpp:81 | the `.part` path is the target with ".part" appended, and two such paths are equal if and only if their targets are |
| FinalName.TakenCandidatesAreBounded | src/core/FileTransferServer.cpp:294-303 | n taken candidates need n existing names, so the loop ends within the number of names plus one probes |
| Handshake.HexRoundTrip | src/core/FileTransferServer.cpp:133-140 | the rendering uses the digits 0 to 9 and a to f only, and an independent reader of hexadecimal gets the bytes back |
| Handshake.HexOnto | src/core/FileTransferServer.cpp:133-140 | every text of such digits, two a byte, is the rendering of what it spells |
| Handshake.HexInjective | src/core/FileTransferServer.cpp:133-140 | lowercase hexadecimal rendering is injective |
| Handshake.UuidTextDigits | src/core/FileTransferServer.cpp:157-182 | dropping the dashes of the 8-4-4-4-12 text leaves exactly the 32 digits of the id |
| Handshake.UuidTextShape | src/core/FileTransferServer.cpp:157-164 | the canonical text has 36 characters, dashes at 8, 13, 18 and 23 and lowercase hexadecimal digits elsewhere |
| Handshake.OnlyDashesGo | src/core/FileTransferServer.cpp:178-182 | removing the dashes removes every dash and nothing else |
| Handshake.AnswersIff | src/core/FileTransferServer.cpp:178-183 | comparing the dashless texts decides whether the key's other characters are 32 lowercase digits that spell the 16 bytes |
| Handshake.RenderedIdsAreExact | src/core/FileTransferManager.cpp:168-179 | an id rendered by `sendFiles` answers to its own 16 bytes and to no others, dashed or not |
| Handshake.RenderedTableLookup | src/core/FileTransferServer.cpp:170-189 | among rendered ids a handshake picks the one with its bytes if present, and nothing otherwise |
| FileTransferServer.FileTransferServer.RegisterTransfer | src/core/FileTransferServer.cpp:68-90 | a fresh, uncancelled session with the given fields stands under the id; the other entries are unchanged |
| FileTransferServer.FileTransferServer.CancelTransfer | src/core/FileTransferServer.cpp:92-103 | a known session is cancelled, its `.part` path removed and its entry erased; an unknown id changes nothing |
| FileTransferServer.FileTransferServer.Stop | src/core/FileTransferServer.cpp:45-66 | the first stop cancels every session, removes every `.part` path and empties the table; a second one changes nothing |
| FileTransferServer.FileTransferServer.FindSession | src/core/FileTransferServer.cpp:170-189 | a session is found if and only if some key, dashes aside, is 32 lowercase hexadecimal digits that spell the id; the canonical key wins; any iteration order |
| FileTransferServer.FileTransferServer.ResolveCollision | src/core/FileTransferServer.cpp:289-303 | ends for every folder with the target if free, else the candidate with the least free count, within the number of names plus one probes |
| FileTransferServer.FileTransferServer.ReceiveLoop | src/core/FileTransferServer.cpp:220-263 | error flag, counter, hashed bytes and progress calls are those `Receive` gives for the byte stream; the file holds as much of the payload, from its start, as the disk takes |
| FileTransferServer.WrittenTwice | src/core/FileTransferServer.cpp:252 | unchecked writes in a row leave what one write of everything would have left; after one that did not fit nothing more is written |
| FileTransferServer.FileTransferServer.SaveUpload | src/core/FileTransferServer.cpp:289-312 | the file gets the first free name and success is reported, or the `.part` file is removed and failure is |
| FileTransferServer.FileTransferServer.ReceiveUpload | src/core/FileTransferServer.cpp:207-312 | success if and only if the frames complete, the session is not cancelled, the hash is accepted and opening and renaming succeed; on success one new file with the part of the payload that fits, on failure nothing but the `.part` file gone; the room left; the error text names what failed first |
| FileTransferServer.UndisturbedUpload | src/core/FileTransferServer.cpp:220-312 | without cancel, stop, open and rename errors an upload succeeds if and only if the stream starts with legal frames adding up to the size and either no hash was announced or the SHA-256 of the joined payload is it; how full the disk is plays no part |
| FileTransferServer.SavedFileIsThePayloadIff | src/core/FileTransferServer.cpp:252-305 | after a reported success the saved file is the payload if and only if the announced size fits on the disk, and otherwise its beginning |
| FileTransferServer.FullDiskReportsSuccess | src/core/FileTransferServer.cpp:252-307 | every well-framed, correctly hashed upload that does not fit is reported as success with a file that is too short |
| FileTransferServer.FileTransferServer.WriteFrame | src/core/FileTransferServer.cpp:333-345 | both writes of a frame succeed, or what the peer took is exactly the cut-off wire; an error exactly if the frame does not fit |
| FileTransferServer.FileTransferServer.SendLoop | src/core/FileTransferServer.cpp:323-353 | the peer takes exactly the framed pieces, as far as it accepts bytes; an error is raised exactly when they do not all fit; progress is called once for each piece taken whole, with the bytes sent by then |
| FileTransferServer.FileTransferServer.SendDownload | src/core/FileTransferServer.cpp:313-363 | success if and only if the file opens, is long enough, the peer takes everything and nobody cancelled or stopped; the error text and all progress calls |
| FileTransferServer.FileTransferServer.HandleConnection | src/core/FileTransferServer.cpp:142-365 | a report only for a session whose id the first 16 bytes spell and whose token, if it has 32 bytes, equals the next 32, in direction 0 or 1; exactly one if every session the id can pick has that token; otherwise nothing changes; the report, its text and the progress calls are the upload's or download's full account |
| UploadInterleavings.QuietStep | src/core/FileTransferServer.cpp:45-103 | registering, accepting, cancelling, stopping and other programs change no connection's record and no report; sessions are only added and cancelled |
| UploadReports.ConnStable | src/core/FileTransferServer.cpp:207-312 | flags that go one way do not spoil what is known of a connection |
| UploadReports.TurnOk | src/core/FileTransferServer.cpp:207-312 | every shared access of an upload, whatever it finds in the folder, keeps: the loop agrees with `Receive`, what was written is the start of the payload and all of it unless the stream is bad, verified and failed states mean what they say |
| UploadReports.StepInv | src/core/FileTransferServer.cpp:45-312 | that, and the account of the reports, is kept by every action of every thread, in any run |
| UploadReports.FinishedExactlyOnce | src/core/FileTransferServer.cpp:207-312 | in every interleaving an upload past the handshake has reported finished exactly once when its thread has ended, with its verdict, and not before |
| UploadReports.SuccessMeans | src/core/FileTransferServer.cpp:228-287 | in every interleaving success implies legal frames adding up to the size and the announced hash |
| UploadReports.FailureMeans | src/core/FileTransferServer.cpp:265-312 | in every interleaving an interrupted upload was cancelled, stopped or badly framed; a mismatch is one for every reading of the stream; a failed rename had a well-framed stream with the right hash |
| UploadReports.WrittenIsThePayloadIff | src/core/FileTransferServer.cpp:252 | in every interleaving what an upload has written is the start of its payload, and all of it if and only if each of its writes found room |
| UploadReports.EveryTurnCounts | src/core/FileTransferServer.cpp:207-312 | in every interleaving an upload's thread takes at most three actions per byte of its stream, one per name found taken, and ten, and can always go on until it has reported |
| UploadReports.CancelledBeforeTheCheckFails | src/core/FileTransferServer.cpp:265-272 | a cancel that lands before the check rules out success in every continuation |
| UploadReports.StopDoomsTheTable | src/core/FileTransferServer.cpp:57-65 | when stop empties the table, every upload of a session in it that has not passed the check can no longer succeed |
| UploadStops.StopCanFinish | src/core/FileTransferServer.cpp:45-66 | from every reachable state with the server running and the lock free, stop's own actions lead to m_running cleared, an empty table, every session of it cancelled and its `.part` path removed, nothing else changed, and every upload of them not past the check doomed |
| UploadStops.StopIsFinal | src/core/FileTransferServer.cpp:47 | once m_running was cleared it stays cleared, in every continuation |
| UploadStops.StoppedGuardCloses | src/core/FileTransferServer.cpp:228 | a thread that finds m_running cleared leaves the loop |
| UploadStops.AtMostOneMoreFrame | src/core/FileTransferServer.cpp:228-261 | once the server is stopped or the session cancelled, an upload receives at most one more frame in every interleaving, and none if it was about to read m_running |
| UploadStops.CancelCanFinish | src/core/FileTransferServer.cpp:92-103 | with the lock free, the two actions of a cancel mark the session, erase its entry, remove its `.part` path and change nothing else |
| UploadStops.RegisteredIsServed | src/core/FileTransferServer.cpp:86-176 | a connection for a newly registered id gets that session, fresh |
| UploadFolder.TurnFolderOk | src/core/FileTransferServer.cpp:207-312 | every shared access of an upload keeps: the `.part` file, if present, holds what was written; the names tried are taken; the saved file holds what was written |
| UploadFolder.TurnIsOwn | src/core/FileTransferServer.cpp:207-312 | an access touches only the upload's own `.part` path and the one new file it reports; ending removes the `.part` path |
| UploadFolder.QuietFilesStep | src/core/FileTransferServer.cpp:45-103 | registering, cancelling and stopping remove nothing but `.part` paths of registered sessions |
| UploadFolder.StepInv | src/core/FileTransferServer.cpp:45-312 | the account of the folder is kept by every action of every thread that respects the discipline |
| UploadFolder.FolderAccount | src/core/FileTransferServer.cpp:289-312 | in every disciplined run the folder, `.part` paths of registered sessions aside, is the files of others, all of them unchanged, plus the files of successful uploads |
| UploadFolder.SavedFile | src/core/FileTransferServer.cpp:252-305 | in every disciplined run a success has one new file on a path of its own under the least free name; it is a prefix of the payload, and all of it if and only if each write found room |
| UploadFolder.PartFileGone | src/core/FileTransferServer.cpp:265-312 | in every disciplined run the `.part` path of an ended upload is gone, unless a later upload reopened it |
| UploadFolder.EveryUploadEnds | src/core/FileTransferServer.cpp:207-312 | in every disciplined run an upload's thread takes at most three actions per byte of its stream, one per file in the folder, and ten, and can always go on until it has reported |
| UploadAlone.LoopEnds | src/core/FileTransferServer.cpp:228-261 | taken action by action and undisturbed, the loop ends with what `Receive` gives and the part of it that fits on disk |
| UploadAlone.AloneAsReported | src/core/FileTransferServer.cpp:207-312 | an undisturbed upload of the state machine ends with the verdict, folder and room of the account proved of `ReceiveUpload` |
| UploadClashes.PairStartHappens | src/core/FileTransferServer.cpp:68-207 | two registered and connected uploads, with any targets, streams and folder, are reached from an empty table |
| UploadClashes.OpenFileSurvivesCancel | src/core/FileTransferServer.cpp:92-103 | a cancel can find the `.part` file open; the file then stays, the session is cancelled and the upload can no longer succeed |
| UploadClashes.NameTakenMeanwhile | src/core/FileTransferServer.cpp:294-312 | another program can take the name between the last question and the rename; the upload then gives up and the other file is untouched |
| UploadClashes.DiskFillsUpMeanwhile | src/core/FileTransferServer.cpp:252-256 | the disk can fill up between two writes; hash and counter then run on over bytes that are not in the file |
| UploadClashes.FullDiskSavesLess | src/core/FileTransferServer.cpp:252-307 | a run in which one received byte is reported saved and the file is empty |
| UploadClashes.SharedPartFileSpoils | src/core/FileTransferServer.cpp:212-307 | two uploads to one target: a run, nobody renaming an open file, in which the first reports success for the bytes of the second |
| UploadClashes.ClashSpoils | src/core/FileTransferServer.cpp:92-307 | two uploads of which a name tried for one is the other's `.part` path: a run in which both report success, one file is gone and the other is wrong |
| UploadClashes.PartNamedTargetSpoils | src/core/FileTransferServer.cpp:92-307 | such a run for a target named like another upload's `.part` file |
| UploadClashes.ClashesSpoilIff | src/core/FileTransferServer.cpp:45-312 | some run of two uploads spoils a reported success if and only if their targets are equal or clash |
| TransferBook.HandleConsistent | src/core/FileTransferManager.cpp:27-297 | every handler keeps the offers, the session table and the tokens told to the peer in agreement |
| TransferBook.AlwaysConsistent | src/core/FileTransferManager.cpp:69-297 | after every sequence of events, stops included, an active offer and its session agree on size and hash, for a download also on the file's path, and only the phone's offers have upload sessions; the stored token is the one in the latest `file_ready` if that was the last word about the id |
| TransferBook.OfferHasSessionIff | src/core/FileTransferManager.cpp:69-297 | after every sequence of events an active offer has a session if and only if there was no stop since it was last registered |
| TransferBook.OffersHaveSessions | src/core/FileTransferManager.cpp:100-297 | after every sequence of events without a stop each active offer has a session |
| TransferBook.UploadKeptIff | src/core/FileTransferManager.cpp:232-260 | an upload's session keeps direction and target if and only if no `file_accept` for it arrives while the offer is active; otherwise it is a download of the empty path from then on |
| TransferBook.AcceptOfOwnOffer | src/core/FileTransferManager.cpp:128-249 | in any state of the books an offer and an accept of it by the phone lose the upload's direction and target |
| TransferBook.HandleCounts | src/core/FileTransferManager.cpp:27-297 | one event's insertions, replacements and closings of an id balance, and it adds at most one reply, only when it closes an entry |
| TransferBook.OffersAreConserved | src/core/FileTransferManager.cpp:27-297 | over every run insertions of an id equal closings plus replacements plus one if still active |
| TransferBook.RepliesAreAddressed | src/core/FileTransferManager.cpp:27-48 | after every sequence of events each `file_complete` has gone to a session that was told of that transfer by `file_accept` or `file_offer` before, and each `file_ready` came after such a message |
| TransferBook.RepliesNeverOutnumberOffers | src/core/FileTransferManager.cpp:38-55 | `file_complete` replies for an id never outnumber its insertions |
| TransferBook.AnswersAreSent | src/core/FileTransferManager.cpp:27-260 | over every sequence of events, the `file_accept`, `file_ready` and `file_complete` messages about an id are exactly those the events call for, in order, to the right session and with the right token; a `file_complete` for each finish that meets an active offer of a session, `ok` as the server said and the error exactly if it failed |
| TransferBook.SignalsAreGiven | src/core/FileTransferManager.cpp:27-287 | over every sequence of events, the signals about an id are one for each finish and one for each `file_complete` that meets an active offer, with the offer's name and the verdict as it came |
| TransferBook.EachFileIsOffered | src/core/FileTransferManager.cpp:163-226 | sending files makes one offer for each readable file, in order, with its name, size, hash and type, under an id that spells its random bytes, and sends nothing else |
| TransferBook.EachFileIsRegistered | src/core/FileTransferManager.cpp:210-222 | and each of them is registered for download with its path, size, hash and token, unless a later one has the same id |
| TransferBook.DropIsFinal | src/core/FileTransferManager.cpp:262-297 | after a reject or cancel there is neither offer nor session of that id until a new offer of it, whatever else happens |
| FileTransferManager.FileTransferManager.HandleFileOffer | src/core/FileTransferManager.cpp:100-150 | an offer is recorded, registered and answered as the books say; an unreadable one changes nothing |
| FileTransferManager.FileTransferManager.SendFiles | src/core/FileTransferManager.cpp:152-230 | every readable file, in order, is recorded, registered under its rendered id and offered; nothing happens without a session |
| FileTransferManager.FileTransferManager.HandleFileAccept | src/core/FileTransferManager.cpp:232-260 | a known offer is registered again with a new token, which is told to the peer |
| FileTransferManager.FileTransferManager.DropTransfer | src/core/FileTransferManager.cpp:289-297 | offer and session go together, the session cancelled and its `.part` path removed |
| FileTransferManager.FileTransferManager.HandleFileReject | src/core/FileTransferManager.cpp:262-270 | a reject drops the transfer as the books say |
| FileTransferManager.FileTransferManager.HandleFileCancel | src/core/FileTransferManager.cpp:289-297 | a cancel drops the transfer as the books say |
| FileTransferManager.FileTransferManager.HandleFileComplete | src/core/FileTransferManager.cpp:272-287 | a known offer is closed and signalled, the session stays |
| FileTransferManager.FileTransferManager.Stop | src/core/FileTransferManager.cpp:69-72 | the first stop empties the table and keeps the offers; a second one changes nothing |
| FileTransferManager.FileTransferManager.OnFinished | src/core/FileTransferManager.cpp:27-56 | the offer is closed and signalled; its session is told, if there was one |
| StreamReceiver.NaluQueue.Push | src/core/StreamReceiver.cpp:141-149 | a full queue of 120 is emptied before the NALU is appended |
| StreamReceiver.NaluQueue.Pop | src/core/StreamReceiver.cpp:161-162 | the front NALU leaves the queue, the rest keeps its order |
| StreamReceiver.ReceiveLoop | src/core/StreamReceiver.cpp:121-151 | for every fragmentation the NALUs enqueued, up to the first bad frame or until m_running is found cleared, depend on the byte stream alone |
| StreamReceiver.NaluByBytes | src/core/StreamReceiver.cpp:124-138 | the next NALU from the four length bytes on, limits 1 and 4194304 included |
| StreamReceiver.QueueIsASuffix | src/core/StreamReceiver.cpp:143-147 | without pops the queue is the last 1 to 120 NALUs, their number given by the count received |
| StreamReceiver.StepInv | src/core/StreamReceiver.cpp:72-166 | mutual exclusion, the wait conditions and the bounds are kept by every step of every thread |
| StreamReceiver.NeverPopsEmpty | src/core/StreamReceiver.cpp:156-163 | the queue never exceeds 120 and the decode thread never pops an empty one |
| StreamReceiver.NoLostWakeUp | src/core/StreamReceiver.cpp:72-87 | once stop has notified, the decode thread is not asleep nor about to be, and takes at most one NALU after m_running was cleared |
| StreamReceiver.DecodeThreadEnds | src/core/StreamReceiver.cpp:153-166 | after the notification the decode thread makes at most six more steps in any interleaving and is never stuck |
| StreamReceiver.AtMostOneMoreNalu | src/core/StreamReceiver.cpp:72-151 | once m_running is cleared the network thread enqueues at most one more NALU in any interleaving |
| StreamReceiver.WindowBeforeTheLock | src/core/StreamReceiver.cpp:79-83 | why the lock is taken: before it, a run exists in which a notification would be missed |
| StreamReceiver.QueueConservation | src/core/StreamReceiver.cpp:140-163 | in every interleaving decoded, in hand and queued NALUs are the received ones in order, less blocks of exactly 120 and at most one block cleared by stop |
| WsSession.StepInv | src/core/WsSession.cpp:131-170 | every mutex section and completion, on any thread, keeps the queue invariant |
| WsSession.WriteQueueIsSafe | src/core/WsSession.cpp:131-170 | at most one write is due or in flight, it is the queue's front, written followed by queued is what was enqueued; before an error a non-empty queue has a write due, after it none starts |
| WsSession.EnqueuedIsPosted | src/core/WsSession.cpp:131-145 | what is enqueued is what was posted, in order |
| WsSession.QueueDrains | src/core/WsSession.cpp:147-170 | without an error the session's own steps can always write out the whole queue, in order |
| WsSession.WsSession.PostedBody | src/core/WsSession.cpp:133-144 | the posted body is the enqueue step, and calls doWrite exactly when the queue was empty |
| WsSession.WsSession.DoWrite | src/core/WsSession.cpp:147-156 | doWrite hands over the front message and leaves the queue alone |
| WsSession.WsSession.OnWritten | src/core/WsSession.cpp:157-169 | the handler is the completion or failure step, and goes on exactly when messages remain |
| CanvasGeometry.EvenSideBounds | src/core/VideoDecoder.cpp:70-78 | the computed side is at most the exact one and less than 2 below it |
| CanvasGeometry.FitFits | src/core/VideoDecoder.cpp:63-81 | on a canvas of at least 2 by 2 the scaled rectangle of every source is non-empty and inside |
| CanvasGeometry.FitsEverywhereIff | src/core/VideoDecoder.cpp:63-81 | and it is so for all sources only there |
| CanvasGeometry.MarginsAreBalanced | src/core/VideoDecoder.cpp:69-80 | one side fills the canvas, offsets are even, opposite margins differ by 0 to 3 pixels |
| CanvasGeometry.AspectIsKept | src/core/VideoDecoder.cpp:64-80 | the other side is the aspect-preserving one rounded down by less than 2, or the minimum of 2 |
| CanvasGeometry.OtherSideIsEven | src/core/VideoDecoder.cpp:70-78 | the side that does not fill the canvas is even, clamped or not |
| CanvasGeometry.ByteIndexInRange | src/core/VideoDecoder.cpp:110-130 | every byte index drawn or swapped lies within width * height * 3 |
| VideoDecoder.MirrorIsItsOwnInverse | src/core/VideoDecoder.cpp:120-132 | mirroring twice restores the buffer |
| VideoDecoder.MirrorKeepsMiddle | src/core/VideoDecoder.cpp:128-130 | the middle column of an odd width stays |
| VideoDecoder.Canvas.Flip | src/core/VideoDecoder.cpp:120-132 | the in-place swaps reverse exactly the picture's rows and leave every other pixel unchanged |
| VideoDecoder.Canvas.Draw | src/core/VideoDecoder.cpp:110-118 | exactly the target rectangle is written |
| VideoDecoder.ShownPixel | src/core/VideoDecoder.cpp:103-132 | the delivered buffer pixel by pixel in row order: the scaled picture in its rectangle, columns from the right if flipped, and zero bytes elsewhere |
| VideoDecoder.ShowsIsUnique | src/core/VideoDecoder.cpp:101-135 | what is delivered is determined by the current picture and the flip setting |
| VideoDecoder.VideoDecoder.constructor | src/core/VideoDecoder.cpp:19-41 | the canvas gets the given size, sides below 1 replaced by 1920 and 1080; canvas sides of exactly 1, which `init` accepts, are excluded |
| VideoDecoder.VideoDecoder.ConvertToRgb | src/core/VideoDecoder.cpp:101-135 | the buffer is black except for the current picture at its offset, mirrored iff flip is on, although the clear is skipped when the picture fills the canvas |
| VideoDecoder.VideoDecoder.DecodeFrame | src/core/VideoDecoder.cpp:57-98 | geometry follows every size change, and no pixel of an earlier frame survives |
| VideoDecoder.VideoDecoder.Decode | src/core/VideoDecoder.cpp:52-99 | over any run of frames and flip toggles each delivered buffer shows its own frame alone |
| AdbManager.AdbManager.Poll | src/core/AdbManager.cpp:192-218 | the push loop and the erase-while-iterating loop compute the attach and detach passes |
| AdbManager.AttachAllSound | src/core/AdbManager.cpp:195-206 | the attach pass adds exactly the serials in state "device", also when listed twice |
| AdbManager.DetachSound | src/core/AdbManager.cpp:208-218 | the erase pass keeps exactly the listed serials |
| AdbManager.PollSound | src/core/AdbManager.cpp:192-218 | after a poll the active serials are those in state "device" and the old ones still listed, without duplicates |
| AdbManager.PollCallbacks | src/core/AdbManager.cpp:195-218 | the callbacks of one poll: attached for a serial listed as "device" that was not active, detached for an active one not listed at all, none for any other |
| AdbManager.OfflineStays | src/core/AdbManager.cpp:208-218 | a device listed in any state, "offline" included, stays active without a callback |
| AdbManager.MonitorFromTheStart | src/core/AdbManager.cpp:188-222 | over every sequence of polls each serial's callbacks alternate attach, detach, starting with attach, and end with attach exactly while it is active |

## Left out

- Socket setup, accept loops, thread creation and joining; whether a blocking read ever returns.
- FFmpeg decoding and swscale's pixel values: a frame brings a function that gives its scaled pixels.
- VirtualCamera and Softcam, which receive the finished canvas.
- PairingManager, PairingCrypto, MessageDispatcher, WsServer and Application: short branches and wiring.
- JSON parsing: handlers take the parsed message, or none when `handleFileOffer` catches an error.
- `sanitizeFileName` and the choice of the download folder: the target path is a parameter of the offer event.
- MdnsService, running `adb` and parsing its output, the user interface.
- Chained `QString::arg` rescanning: names with a `%` may come out differently from `FinalName.Candidate`.
- Case-insensitive file systems, and the 32-bit collision counter (it would take 2^31 taken names).
- Floating-point rounding in the aspect ratio, and 32-bit overflow in canvas index arithmetic.
- Lifetimes of C++ buffers, in particular of the local message handed to `async_write`.
- Two receivers sharing the static NALU queue: the application creates one.
- Transfer features that are only planned: stream encryption, timeout, a check for free space, one transfer at a time.
- UploadFolder.FolderAccount, UploadFolder.SavedFile, UploadFolder.PartFileGone: hold under the discipline named above; `ClashesSpoilIff` says why.
- VideoDecoder.VideoDecoder.constructor: a canvas side of 1 is excluded, because on it some pictures do not fit (`FitsEverywhereIff`).
