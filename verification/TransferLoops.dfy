/** What the upload receive loop and the download send loop compute, and how they fit together. */
module TransferLoops {
  import opened Wire

  const MAX_CHUNK := 1024 * 1024
  const CHUNK_PLAINTEXT_SIZE := 256 * 1024
  const UINT64_LIMIT := 0x1_0000_0000_0000_0000

  // ---- Receiving ----

  /** The 64-bit byte counter, with its wrap-around. */
  function Advance(total: nat, chunk: nat): nat {
    (total + chunk) % UINT64_LIMIT
  }

  /** What the receive loop leaves behind: the error flag, the counter, every byte written and
      hashed, and the counter values passed to the progress callback. */
  datatype Reception = Reception(error: bool, total: nat, payload: seq<byte>, progress: seq<nat>)

  function Receive(s: seq<byte>, total: nat, expected: nat): Reception
    decreases |s|
  {
    if total >= expected then Reception(false, total, [], []) else
    match NextFrame(s, MAX_CHUNK)
    case Whole(p, rest) =>
      var total' := Advance(total, |p|);
      var r := Receive(rest, total', expected);
      r.(payload := p + r.payload, progress := [total'] + r.progress)
    case _ => Reception(true, total, [], [])
  }

  /** The stream starts with frames of 1 to 1048576 bytes that add up to exactly `expected`. */
  ghost predicate StartsWithFrames(s: seq<byte>, payloads: seq<seq<byte>>, expected: nat) {
    && Sendable(payloads, 1048576)
    && FramedAll(payloads) <= s
    && |Joined(payloads)| == expected
  }

  ghost predicate Complete(r: Reception, expected: nat) {
    !r.error && r.total == expected
  }

  /** The counter is safe from wrap-around exactly for sizes up to 2^64 - 2^20. */
  lemma NoWrapBound(expected: nat)
    requires expected < 0x1_0000_0000_0000_0000
    ensures expected <= 0x1_0000_0000_0000_0000 - 1048576 <==>
      forall total: nat, chunk: nat | total < expected && 1 <= chunk <= 1048576 ::
        Advance(total, chunk) == total + chunk
  {
    if expected > UINT64_LIMIT - MAX_CHUNK {
      assert Advance(expected - 1, MAX_CHUNK) == expected - 1 + MAX_CHUNK - UINT64_LIMIT;
    }
  }

  /** Strictly rising values, all above `from`. */
  ghost predicate Rises(from: nat, values: seq<nat>)
    decreases |values|
  {
    if values == [] then true else from < values[0] && Rises(values[0], values[1..])
  }

  function LastOr(default: nat, values: seq<nat>): nat {
    if values == [] then default else values[|values| - 1]
  }

  /** One turn of the loop on a stream that starts with a legal frame. */
  lemma ReceiveOneFrame(p: seq<byte>, rest: seq<byte>, total: nat, expected: nat)
    requires total < expected <= UINT64_LIMIT - MAX_CHUNK
    requires 1 <= |p| <= MAX_CHUNK
    ensures var r := Receive(rest, total + |p|, expected);
      Receive(Framed(p) + rest, total, expected)
        == Reception(r.error, r.total, p + r.payload, [total + |p|] + r.progress)
  {
    NextFrameOfFramed(MAX_CHUNK, p, rest);
    assert Advance(total, |p|) == total + |p|;
  }

  lemma ReceiveFirstOf(payloads: seq<seq<byte>>, later: seq<byte>, total: nat, expected: nat)
    requires payloads != [] && 1 <= |payloads[0]| <= MAX_CHUNK
    requires total < expected <= UINT64_LIMIT - MAX_CHUNK
    ensures var p, r := payloads[0], Receive(FramedAll(payloads[1..]) + later, total + |payloads[0]|, expected);
      Receive(FramedAll(payloads) + later, total, expected)
        == Reception(r.error, r.total, p + r.payload, [total + |p|] + r.progress)
  {
    var p, rest := payloads[0], FramedAll(payloads[1..]) + later;
    assert FramedAll(payloads) + later == Framed(p) + rest;
    ReceiveOneFrame(p, rest, total, expected);
  }

  /** The loop's bound: the counter is the number of bytes written, the `.part` file never exceeds
      expected - 1 + 1048576 bytes, and the progress values rise strictly up to the counter. */
  lemma {:induction false} ReceiveBounds(s: seq<byte>, total: nat, expected: nat)
    requires expected <= UINT64_LIMIT - MAX_CHUNK
    ensures var r := Receive(s, total, expected);
      && r.total == total + |r.payload|
      && (total < expected ==> r.total <= expected - 1 + 1048576)
      && Rises(total, r.progress)
      && LastOr(total, r.progress) == r.total
    decreases |s|
  {
    if total < expected && NextFrame(s, MAX_CHUNK).Whole? {
      var f := NextFrame(s, MAX_CHUNK);
      var total' := Advance(total, |f.payload|);
      assert total' == total + |f.payload|;
      ReceiveBounds(f.rest, total', expected);
      var tail := Receive(f.rest, total', expected).progress;
      assert ([total'] + tail)[1..] == tail;
    }
  }

  lemma {:induction false} FramesComplete(payloads: seq<seq<byte>>, later: seq<byte>, total: nat, expected: nat)
    requires expected <= UINT64_LIMIT - MAX_CHUNK
    requires Sendable(payloads, MAX_CHUNK) && total + |Joined(payloads)| == expected
    ensures var r := Receive(FramedAll(payloads) + later, total, expected);
      Complete(r, expected) && r.payload == Joined(payloads)
    decreases |payloads|
  {
    if payloads != [] {
      FramesComplete(payloads[1..], later, total + |payloads[0]|, expected);
      ReceiveFirstOf(payloads, later, total, expected);
    }
  }

  lemma FrameInFront(s: seq<byte>, p: seq<byte>, rest: seq<byte>, tail: seq<seq<byte>>, later: seq<byte>)
    requires NextFrame(s, MAX_CHUNK) == Whole(p, rest) && rest == FramedAll(tail) + later
    ensures s == FramedAll([p] + tail) + later
    ensures Joined([p] + tail) == p + Joined(tail) && Sendable([p] + tail, MAX_CHUNK) == Sendable(tail, MAX_CHUNK)
  {
    NextFrameInvertsFramed(s, MAX_CHUNK, p, rest);
    assert ([p] + tail)[1..] == tail;
    assert Framed(p) + (FramedAll(tail) + later) == Framed(p) + FramedAll(tail) + later;
  }

  lemma {:induction false} CompleteHasFrames(s: seq<byte>, total: nat, expected: nat)
      returns (payloads: seq<seq<byte>>, later: seq<byte>)
    requires expected <= UINT64_LIMIT - MAX_CHUNK
    requires total <= expected && Complete(Receive(s, total, expected), expected)
    ensures Sendable(payloads, MAX_CHUNK) && total + |Joined(payloads)| == expected
    ensures s == FramedAll(payloads) + later
    decreases |s|
  {
    if total == expected {
      return [], s;
    }
    var f := NextFrame(s, MAX_CHUNK);
    assert Advance(total, |f.payload|) == total + |f.payload|;
    ReceiveBounds(f.rest, total + |f.payload|, expected);
    var tail;
    tail, later := CompleteHasFrames(f.rest, total + |f.payload|, expected);
    payloads := [f.payload] + tail;
    FrameInFront(s, f.payload, f.rest, tail, later);
  }

  /** Main result for an undisturbed upload: it completes exactly on streams that start with frames
      of legal length adding up to `expected` at a frame boundary, and then holds exactly their
      payloads. Whatever follows in the stream plays no part. */
  lemma UploadCompletesIff(s: seq<byte>, expected: nat)
    requires expected <= UINT64_LIMIT - MAX_CHUNK
    ensures Complete(Receive(s, 0, expected), expected)
       <==> exists payloads :: StartsWithFrames(s, payloads, expected)
    ensures forall payloads | StartsWithFrames(s, payloads, expected) ::
      Receive(s, 0, expected).payload == Joined(payloads)
  {
    if Complete(Receive(s, 0, expected), expected) {
      var payloads, later := CompleteHasFrames(s, 0, expected);
      assert StartsWithFrames(s, payloads, expected);
    }
    forall payloads | StartsWithFrames(s, payloads, expected)
      ensures Complete(Receive(s, 0, expected), expected)
      ensures Receive(s, 0, expected).payload == Joined(payloads)
    {
      assert s == FramedAll(payloads) + s[|FramedAll(payloads)|..];
      FramesComplete(payloads, s[|FramedAll(payloads)|..], 0, expected);
    }
  }

  /** What is done so far and what the rest of the stream will do add up to `all`. */
  ghost predicate Accounted(all: Reception, hashed: seq<byte>, progress: seq<nat>, s: seq<byte>,
                            total: nat, expected: nat) {
    var r := Receive(s, total, expected);
    all == Reception(r.error, r.total, hashed + r.payload, progress + r.progress)
  }

  lemma AccountedTurn(all: Reception, hashed: seq<byte>, progress: seq<nat>, s: seq<byte>,
                      total: nat, expected: nat)
    requires total < expected && Accounted(all, hashed, progress, s, total, expected)
    ensures match NextFrame(s, MAX_CHUNK)
      case Whole(p, rest) =>
        Accounted(all, hashed + p, progress + [Advance(total, |p|)], rest, Advance(total, |p|), expected)
      case _ => all == Reception(true, total, hashed, progress)
  {
    match NextFrame(s, MAX_CHUNK)
    case Whole(p, rest) =>
      var r := Receive(rest, Advance(total, |p|), expected);
      assert hashed + p + r.payload == hashed + (p + r.payload);
      assert progress + [Advance(total, |p|)] + r.progress == progress + ([Advance(total, |p|)] + r.progress);
    case _ =>
  }

  lemma AccountedAtTheEnd(all: Reception, hashed: seq<byte>, progress: seq<nat>, s: seq<byte>,
                          total: nat, expected: nat)
    requires total >= expected && Accounted(all, hashed, progress, s, total, expected)
    ensures all == Reception(false, total, hashed, progress)
  {
    assert hashed + [] == hashed && progress + [] == progress;
  }

  /** One turn of the receive loop, with the length and its limits written out: a length of 0 or above
      1048576, or too few bytes behind it, is an error; otherwise that many bytes are received. */
  lemma ReceiveByBytes(b0: byte, b1: byte, b2: byte, b3: byte, n: nat, later: seq<byte>, total: nat, expected: nat)
    requires n == 16777216 * b0 as int + 65536 * b1 as int + 256 * b2 as int + b3 as int
    requires total < expected <= 0x1_0000_0000_0000_0000 - 1048576
    ensures Receive([b0, b1, b2, b3] + later, total, expected) ==
      if n == 0 || n > 1048576 || n > |later| then Reception(true, total, [], []) else
      var r := Receive(later[n..], total + n, expected);
      Reception(r.error, r.total, later[..n] + r.payload, [total + n] + r.progress)
  {
    FrameByBytes(b0, b1, b2, b3, n, later, MAX_CHUNK);
    ReceiveLength([b0, b1, b2, b3] + later, n, later, total, expected);
  }

  lemma ReceiveLength(s: seq<byte>, n: nat, later: seq<byte>, total: nat, expected: nat)
    requires total < expected <= UINT64_LIMIT - MAX_CHUNK
    requires NextFrame(s, MAX_CHUNK) ==
      if n == 0 || n > MAX_CHUNK then BadLength else if |later| < n then Short else Whole(later[..n], later[n..])
    ensures Receive(s, total, expected) ==
      if n == 0 || n > MAX_CHUNK || n > |later| then Reception(true, total, [], []) else
      var r := Receive(later[n..], total + n, expected);
      Reception(r.error, r.total, later[..n] + r.payload, [total + n] + r.progress)
  {
    assert 1 <= n <= MAX_CHUNK ==> Advance(total, n) == total + n;
  }

  // ---- Sending ----

  function Min(a: nat, b: nat): nat {
    if a < b then a else b
  }

  /** The pieces the send loop reads from a file, from byte `at` on. */
  function Chunks(file: seq<byte>, at: nat, expected: nat): seq<seq<byte>>
    decreases expected - at
  {
    if at >= expected || at >= |file| then [] else
    var n := Min(Min(CHUNK_PLAINTEXT_SIZE, expected - at), |file| - at);
    [file[at..at + n]] + Chunks(file, at + n, expected)
  }

  lemma {:induction false} ChunksCoverTheFile(file: seq<byte>, at: nat, expected: nat)
    requires at <= expected && at <= |file|
    ensures Joined(Chunks(file, at, expected)) == file[at..Min(expected, |file|)]
    ensures Sendable(Chunks(file, at, expected), 262144)
    decreases expected - at
  {
    if at < expected && at < |file| {
      var n := Min(Min(CHUNK_PLAINTEXT_SIZE, expected - at), |file| - at);
      ChunksCoverTheFile(file, at + n, expected);
      var all, head, rest := Chunks(file, at, expected), file[at..at + n], Chunks(file, at + n, expected);
      assert all == [head] + rest && all[0] == head && all[1..] == rest;
      assert Joined(all) == head + file[at + n..Min(expected, |file|)] == file[at..Min(expected, |file|)];
    }
  }

  lemma {:induction false} SendableWithin(payloads: seq<seq<byte>>, limit: nat, wider: nat)
    requires Sendable(payloads, limit) && limit <= wider
    ensures Sendable(payloads, wider)
    decreases |payloads|
  {
    if payloads != [] {
      SendableWithin(payloads[1..], limit, wider);
    }
  }

  /** The wire bytes still due once `at` bytes of the file are sent; none when the loop is not entered. */
  function Due(go: bool, file: seq<byte>, at: nat, expected: nat): seq<byte> {
    if go then FramedAll(Chunks(file, at, expected)) else []
  }

  lemma NextChunkOnTheWire(file: seq<byte>, at: nat, expected: nat)
    requires at < expected && at < |file|
    ensures var n := Min(Min(CHUNK_PLAINTEXT_SIZE, expected - at), |file| - at);
      && 1 <= n <= MAX_CHUNK
      && Due(true, file, at, expected) == BigEndian(n) + file[at..at + n] + Due(true, file, at + n, expected)
  {
    var n := Min(Min(CHUNK_PLAINTEXT_SIZE, expected - at), |file| - at);
    assert Chunks(file, at, expected)[1..] == Chunks(file, at + n, expected);
  }

  /** One turn of the send loop, byte by byte: four bytes that count the piece, then the piece, of 262144
      bytes unless less is wanted or left. */
  lemma SendByBytes(file: seq<byte>, at: nat, expected: nat) returns (b: seq<byte>)
    requires at < expected && at < |file|
    ensures var n := Min(262144, Min(expected, |file|) - at);
      && |b| == 4 && n == 16777216 * b[0] as int + 65536 * b[1] as int + 256 * b[2] as int + b[3] as int
      && FramedAll(Chunks(file, at, expected)) == b + file[at..at + n] + FramedAll(Chunks(file, at + n, expected))
  {
    var n := Min(Min(CHUNK_PLAINTEXT_SIZE, expected - at), |file| - at);
    NextChunkOnTheWire(file, at, expected);
    SentBytes(n);
    b := BigEndian(n);
  }

  lemma NothingDueAtTheEnd(go: bool, file: seq<byte>, at: nat, expected: nat)
    requires !go || at >= expected || at >= |file|
    ensures Due(go, file, at, expected) == []
  {
  }

  /** The progress values of the send loop, up to `total`, over a file of which `all` bytes are wanted. */
  ghost predicate ProgressIs(progress: seq<nat>, total: nat, all: nat) {
    && total == Min(|progress| * 262144, all)
    && forall i | 0 <= i < |progress| :: progress[i] == Min((i + 1) * 262144, all)
  }

  lemma OneMorePiece(progress: seq<nat>, total: nat, all: nat, n: nat)
    requires total < all && n == Min(CHUNK_PLAINTEXT_SIZE, all - total) && ProgressIs(progress, total, all)
    ensures ProgressIs(progress + [total + n], total + n, all)
    ensures 4 * |progress| + total + 4 + n == 4 * (|progress| + 1) + Min((|progress| + 1) * 262144, all)
  {
  }

  /** All progress calls of a download: none when the loop was not entered, up to the end when the peer
      took everything, else up to the last piece it took whole. */
  ghost predicate SentProgress(progress: seq<nat>, go: bool, all: nat, fits: bool, capacity: nat) {
    && ProgressIs(progress, LastOr(0, progress), all)
    && (if !go then progress == [] else
        if fits then LastOr(0, progress) == all else StoppedAfter(|progress|, all, capacity))
  }

  lemma LastIsTotal(progress: seq<nat>, total: nat, all: nat)
    requires ProgressIs(progress, total, all)
    ensures LastOr(0, progress) == total
  {
  }

  /** The send loop in the middle: what is on the wire and what is still due. */
  ghost predicate SentSoFar(wire: seq<byte>, go: bool, file: seq<byte>, expected: nat, sent: seq<byte>,
                            capacity: nat, total: nat, progress: seq<nat>) {
    && wire == sent + Due(go, file, total, expected)
    && total <= Min(expected, |file|) && ProgressIs(progress, total, Min(expected, |file|))
    && |sent| == 4 * |progress| + total <= capacity
  }

  lemma SentAll(wire: seq<byte>, go: bool, file: seq<byte>, expected: nat, sent: seq<byte>,
                capacity: nat, total: nat, progress: seq<nat>)
    requires SentSoFar(wire, go, file, expected, sent, capacity, total, progress)
    requires !go || total >= expected || total >= |file|
    ensures sent == wire && |wire| <= capacity && (go ==> total == Min(expected, |file|))
    ensures ProgressIs(progress, total, Min(expected, |file|))
  {
    NothingDueAtTheEnd(go, file, total, expected);
  }

  /** The peer takes `n` whole frames, each with its four length bytes, and not one more. */
  predicate StoppedAfter(n: nat, all: nat, capacity: nat) {
    4 * n + Min(n * 262144, all) <= capacity < 4 * (n + 1) + Min((n + 1) * 262144, all)
  }

  /** Main result for the pair: whatever the sender puts on the wire for the first `expected` bytes
      of a file, followed by anything, the receiver turns back into exactly those bytes. */
  lemma RoundTrip(file: seq<byte>, expected: nat, later: seq<byte>)
    requires expected <= |file| && expected <= UINT64_LIMIT - MAX_CHUNK
    ensures var r := Receive(FramedAll(Chunks(file, 0, expected)) + later, 0, expected);
      Complete(r, expected) && r.payload == file[..expected]
  {
    ChunksCoverTheFile(file, 0, expected);
    var chunks := Chunks(file, 0, expected);
    SendableWithin(chunks, CHUNK_PLAINTEXT_SIZE, MAX_CHUNK);
    assert StartsWithFrames(FramedAll(chunks) + later, chunks, expected);
    UploadCompletesIff(FramedAll(chunks) + later, expected);
  }

  /** When the file turned out shorter than announced, the receiver notices: the frames run out. */
  lemma ShortFileNeverCompletes(file: seq<byte>, expected: nat)
    requires |file| < expected <= UINT64_LIMIT - MAX_CHUNK
    ensures !Complete(Receive(FramedAll(Chunks(file, 0, expected)), 0, expected), expected)
  {
    ChunksCoverTheFile(file, 0, expected);
    SendableWithin(Chunks(file, 0, expected), CHUNK_PLAINTEXT_SIZE, MAX_CHUNK);
    RunsOut(Chunks(file, 0, expected), 0, expected);
    assert FramedAll(Chunks(file, 0, expected)) + [] == FramedAll(Chunks(file, 0, expected));
  }

  lemma {:induction false} RunsOut(payloads: seq<seq<byte>>, total: nat, expected: nat)
    requires Sendable(payloads, MAX_CHUNK)
    requires total + |Joined(payloads)| < expected <= UINT64_LIMIT - MAX_CHUNK
    ensures Receive(FramedAll(payloads) + [], total, expected).error
    decreases |payloads|
  {
    if payloads != [] {
      RunsOut(payloads[1..], total + |payloads[0]|, expected);
      ReceiveFirstOf(payloads, [], total, expected);
    }
  }
}
