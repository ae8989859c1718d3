/** Bytes, big-endian lengths, sockets and length-prefixed frames: what the upload receiver,
    the download sender and the video receiver share. */
module Wire {

  type byte = x: int | 0 <= x < 0x100

  const UINT32_LIMIT := 0x1_0000_0000

  // ---- Four-byte big-endian lengths ----

  /** The four bytes a length is sent as. On an unsigned value, `>> 8k` is division by 256^k and
      `& 0xFF` is the remainder modulo 256; anything above 32 bits is cut off by the cast. */
  function BigEndian(n: nat): seq<byte> {
    [n / 0x100_0000 % 0x100, n / 0x1_0000 % 0x100, n / 0x100 % 0x100, n % 0x100]
  }

  /** The length that four received bytes announce; the shifted bytes do not overlap, so `|` is a sum. */
  function FromBigEndian(b: seq<byte>): nat
    requires |b| == 4
  {
    b[0] as int * 0x100_0000 + b[1] as int * 0x1_0000 + b[2] as int * 0x100 + b[3] as int
  }

  lemma BigEndianRoundTrip(n: nat)
    requires n < UINT32_LIMIT
    ensures FromBigEndian(BigEndian(n)) == n
  {
    assert n / 0x1_0000 == n / 0x100 / 0x100;
    assert n / 0x100_0000 == n / 0x1_0000 / 0x100;
  }

  lemma BigEndianOnto(b: seq<byte>)
    requires |b| == 4
    ensures FromBigEndian(b) < UINT32_LIMIT
    ensures BigEndian(FromBigEndian(b)) == b
  {
    var n := FromBigEndian(b);
    assert n / 0x100 == b[0] as int * 0x1_0000 + b[1] as int * 0x100 + b[2] as int;
    assert n / 0x1_0000 == b[0] as int * 0x100 + b[1] as int;
    assert n / 0x100_0000 == b[0];
  }

  /** The first byte is the most significant one: a last byte counts for itself, and every byte in front
      of it 256 times what it would count there. */
  lemma MostSignificantFirst(a: byte, b: byte, c: byte, x: byte)
    ensures FromBigEndian([0, 0, 0, x]) == x
    ensures FromBigEndian([a, b, c, x]) == 0x100 * FromBigEndian([0, a, b, c]) + x
  {
  }

  /** The same of the bytes that are sent. */
  lemma SentBytes(n: nat)
    requires n < 0x1_0000_0000
    ensures var b := BigEndian(n);
      n == 16777216 * b[0] as int + 65536 * b[1] as int + 256 * b[2] as int + b[3] as int
  {
    BigEndianRoundTrip(n);
    assert FromBigEndian(BigEndian(n)) == n;
  }

  /** The order of dictionaries. */
  predicate Before(a: seq<byte>, b: seq<byte>)
    requires |a| == |b|
  {
    a != [] && (a[0] < b[0] || (a[0] == b[0] && Before(a[1..], b[1..])))
  }

  /** Lengths are ordered as their encodings are. */
  lemma OrderIsLexicographic(m: nat, n: nat)
    requires m < 0x1_0000_0000 && n < 0x1_0000_0000
    ensures m < n <==> Before(BigEndian(m), BigEndian(n))
  {
    var a, b := BigEndian(m), BigEndian(n);
    SentBytes(m);
    SentBytes(n);
    assert Before(a, b) <==> a[0] < b[0] || (a[0] == b[0] && Before(a[1..], b[1..]));
    assert Before(a[1..], b[1..]) <==> a[1] < b[1] || (a[1] == b[1] && Before(a[1..][1..], b[1..][1..]));
    assert a[1..][1..] == a[2..] && b[1..][1..] == b[2..];
    assert Before(a[2..], b[2..]) <==> a[2] < b[2] || (a[2] == b[2] && Before(a[2..][1..], b[2..][1..]));
    assert a[2..][1..] == a[3..] && b[2..][1..] == b[3..];
    assert Before(a[3..], b[3..]) <==> a[3] < b[3] by {
      assert a[3..][1..] == [] && b[3..][1..] == [];
    }
  }

  // ---- Frames ----

  /** What the next frame of a byte stream turns out to be. */
  datatype Frame =
    | Short                                       // the stream ends inside the frame
    | BadLength                                   // length zero or above the limit
    | Whole(payload: seq<byte>, rest: seq<byte>)

  function NextFrame(s: seq<byte>, limit: nat): (f: Frame)
    ensures f.Whole? ==> 1 <= |f.payload| <= limit && |f.rest| < |s|
  {
    if |s| < 4 then Short else
    var n := FromBigEndian(s[..4]);
    if n == 0 || n > limit then BadLength
    else if |s| - 4 < n then Short
    else Whole(s[4..4 + n], s[4 + n..])
  }

  function Framed(payload: seq<byte>): seq<byte> {
    BigEndian(|payload|) + payload
  }

  /** Every payload is of legal length, 1 to `limit` bytes. */
  predicate Sendable(payloads: seq<seq<byte>>, limit: nat) {
    if payloads == [] then true else 1 <= |payloads[0]| <= limit && Sendable(payloads[1..], limit)
  }

  function FramedAll(payloads: seq<seq<byte>>): seq<byte> {
    if payloads == [] then [] else Framed(payloads[0]) + FramedAll(payloads[1..])
  }

  function Joined(payloads: seq<seq<byte>>): seq<byte> {
    if payloads == [] then [] else payloads[0] + Joined(payloads[1..])
  }

  /** A stream starts with a whole frame exactly when it is that frame's encoding and a rest. */
  lemma NextFrameInvertsFramed(s: seq<byte>, limit: nat, payload: seq<byte>, rest: seq<byte>)
    requires limit < UINT32_LIMIT
    ensures NextFrame(s, limit) == Whole(payload, rest)
       <==> 1 <= |payload| <= limit && s == Framed(payload) + rest
  {
    if 1 <= |payload| <= limit && s == Framed(payload) + rest {
      BigEndianRoundTrip(|payload|);
      assert s[..4] == BigEndian(|payload|);
      assert s[4..4 + |payload|] == payload;
      assert s[4 + |payload|..] == rest;
    }
    if NextFrame(s, limit) == Whole(payload, rest) {
      BigEndianOnto(s[..4]);
      assert s == s[..4] + (s[4..4 + |payload|] + s[4 + |payload|..]);
    }
  }

  /** What the reader makes of four length bytes and what follows them, byte by byte. */
  lemma FrameByBytes(b0: byte, b1: byte, b2: byte, b3: byte, n: nat, later: seq<byte>, limit: nat)
    requires n == 16777216 * b0 as int + 65536 * b1 as int + 256 * b2 as int + b3 as int
    ensures NextFrame([b0, b1, b2, b3] + later, limit) ==
      if n == 0 || n > limit then BadLength
      else if |later| < n then Short
      else Whole(later[..n], later[n..])
  {
    var s := [b0, b1, b2, b3] + later;
    assert n == FromBigEndian([b0, b1, b2, b3]);
    assert s[..4] == [b0, b1, b2, b3];
    if n <= |later| {
      assert s[4..4 + n] == later[..n] && s[4 + n..] == later[n..];
    }
  }

  lemma NextFrameOfFramed(limit: nat, payload: seq<byte>, rest: seq<byte>)
    requires 1 <= |payload| <= limit < UINT32_LIMIT
    ensures NextFrame(Framed(payload) + rest, limit) == Whole(payload, rest)
  {
    NextFrameInvertsFramed(Framed(payload) + rest, limit, payload, rest);
  }

  // ---- Sockets ----

  /** A connection: the bytes the peer still delivers before it ends, and the bytes it has taken.
      How the network cuts the former into pieces is left open; of the latter it takes `capacity`. */
  class Socket {
    var incoming: seq<byte>
    var sent: seq<byte>
    const capacity: nat

    constructor (bytes: seq<byte>, capacity: nat)
      ensures incoming == bytes && sent == [] && this.capacity == capacity
    {
      incoming, sent, this.capacity := bytes, [], capacity;
    }

    /** One `read_some`: any non-empty piece that fits, or 0 at the end of the stream. */
    method ReadSome(buf: array<byte>, at: nat, room: nat) returns (n: nat)
      requires 0 < room && at + room <= buf.Length
      modifies this`incoming, buf
      ensures n <= room && n <= |old(incoming)|
      ensures n == 0 <==> old(incoming) == []
      ensures incoming == old(incoming)[n..]
      ensures buf[..] == old(buf[..at]) + old(incoming)[..n] + old(buf[at + n..])
    {
      if incoming == [] {
        assert buf[..] == old(buf[..at]) + [] + old(buf[at..]);
        return 0;
      }
      n :| 1 <= n <= room && n <= |incoming|;
      forall i | 0 <= i < n {
        buf[at + i] := incoming[i];
      }
      incoming := incoming[n..];
    }

    /** Reads exactly `size` bytes however they arrive, or fails at the end of the stream. */
    method ReadExact(buf: array<byte>, size: nat) returns (ok: bool)
      requires size <= buf.Length
      modifies this`incoming, buf
      ensures ok <==> size <= |old(incoming)|
      ensures ok ==> buf[..size] == old(incoming)[..size] && incoming == old(incoming)[size..]
      ensures ok ==> buf[size..] == old(buf[size..])
      ensures !ok ==> incoming == []
    {
      var total := 0;
      while total < size
        invariant total <= size && total <= |old(incoming)|
        invariant incoming == old(incoming)[total..]
        invariant buf[..total] == old(incoming)[..total]
        invariant buf[size..] == old(buf[size..])
      {
        var n := ReadSome(buf, total, size - total);
        if n == 0 {
          return false;
        }
        total := total + n;
      }
      return true;
    }

    /** Reads one length-prefixed frame: four bytes, the range check, then the payload. */
    method ReadFrame(limit: nat) returns (f: Frame)
      modifies this`incoming
      ensures match NextFrame(old(incoming), limit)
              case Whole(payload, rest) => f == Whole(payload, rest) && incoming == rest
              case bad => f == bad && |incoming| <= |old(incoming)|
    {
      var lenBuf := new byte[4];
      var got := ReadExact(lenBuf, 4);
      if !got {
        return Short;
      }
      assert lenBuf[..] == old(incoming)[..4];
      var n := FromBigEndian(lenBuf[..]);
      if n == 0 || n > limit {
        return BadLength;
      }
      var chunk := new byte[n];
      got := ReadExact(chunk, n);
      if !got {
        return Short;
      }
      assert chunk[..] == chunk[..n];
      return Whole(chunk[..], incoming);
    }

    /** `asio::write`: everything, or as much as the peer still takes and an error. */
    method Write(data: seq<byte>) returns (ok: bool)
      requires |sent| <= capacity
      modifies this`sent
      ensures |sent| <= capacity
      ensures ok <==> |old(sent)| + |data| <= capacity
      ensures sent == Taken(old(sent) + data, capacity)
    {
      ok := |sent| + |data| <= capacity;
      sent := Taken(sent + data, capacity);
    }
  }

  function Taken(s: seq<byte>, capacity: nat): seq<byte> {
    if |s| <= capacity then s else s[..capacity]
  }

  /** Once a write was cut short, nothing behind it would have been taken either. */
  lemma CutShort(a: seq<byte>, b: seq<byte>, capacity: nat)
    requires |a| > capacity
    ensures Taken(a + b, capacity) == Taken(a, capacity)
  {
    assert (a + b)[..capacity] == a[..capacity];
  }
}
