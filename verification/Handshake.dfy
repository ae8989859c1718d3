/** The connection handshake: rendering a 16-byte id as text, and matching it to registered ids. */
module Handshake {
  import opened Wire

  const UUID_BINARY_SIZE := 16
  const TOKEN_SIZE := 32
  const HANDSHAKE_SIZE := UUID_BINARY_SIZE + TOKEN_SIZE + 1

  function HexDigit(d: nat): char
    requires d < 16
  {
    if d < 10 then '0' + d as char else 'a' + (d - 10) as char
  }

  /** Lowercase hexadecimal, two digits a byte. */
  function Hex(bytes: seq<byte>): (s: string)
    ensures |s| == 2 * |bytes|
  {
    if bytes == [] then "" else [HexDigit(bytes[0] / 16), HexDigit(bytes[0] % 16)] + Hex(bytes[1..])
  }

  /** The 8-4-4-4-12 text form of a 16-byte id (section 4 of RFC 9562). */
  function UuidText(id: seq<byte>): string
    requires |id| == UUID_BINARY_SIZE
  {
    Hex(id[..4]) + "-" + Hex(id[4..6]) + "-" + Hex(id[6..8]) + "-" + Hex(id[8..10]) + "-" + Hex(id[10..])
  }

  function WithoutDashes(s: string): string {
    if s == "" then "" else (if s[0] == '-' then "" else [s[0]]) + WithoutDashes(s[1..])
  }

  // ---- An independent reader of hexadecimal text ----

  predicate IsLowerHex(c: char) {
    '0' <= c <= '9' || 'a' <= c <= 'f'
  }

  predicate AllLowerHex(s: string) {
    forall i | 0 <= i < |s| :: IsLowerHex(s[i])
  }

  function DigitValue(c: char): (v: nat)
    requires IsLowerHex(c)
    ensures v < 16
  {
    if c <= '9' then c as int - '0' as int else 10 + (c as int - 'a' as int)
  }

  function FromHex(s: string): seq<byte>
    requires AllLowerHex(s) && |s| % 2 == 0
  {
    if s == "" then [] else [16 * DigitValue(s[0]) + DigitValue(s[1])] + FromHex(s[2..])
  }

  /** The digits are lowercase hexadecimal, and spell the bytes. */
  lemma {:induction false} HexRoundTrip(bytes: seq<byte>)
    ensures AllLowerHex(Hex(bytes)) && FromHex(Hex(bytes)) == bytes
  {
    if bytes != [] {
      HexRoundTrip(bytes[1..]);
      var s := Hex(bytes);
      assert s[2..] == Hex(bytes[1..]);
      assert IsLowerHex(s[0]) && IsLowerHex(s[1]);
      assert forall i | 2 <= i < |s| :: s[i] == s[2..][i - 2];
      assert FromHex(s) == [bytes[0]] + FromHex(s[2..]);
    }
  }

  /** And every lowercase text is the rendering of what it spells. */
  lemma {:induction false} HexOnto(s: string)
    requires AllLowerHex(s) && |s| % 2 == 0
    ensures Hex(FromHex(s)) == s
  {
    if s != "" {
      HexOnto(s[2..]);
      var b := FromHex(s);
      assert b[1..] == FromHex(s[2..]);
      assert HexDigit(DigitValue(s[0])) == s[0] && HexDigit(DigitValue(s[1])) == s[1];
      assert b[0] / 16 == DigitValue(s[0]) && b[0] % 16 == DigitValue(s[1]);
      assert s == [s[0], s[1]] + s[2..];
    }
  }

  lemma {:induction false} HexInjective(a: seq<byte>, b: seq<byte>)
    ensures Hex(a) == Hex(b) <==> a == b
  {
    if a != [] && b != [] && Hex(a) == Hex(b) {
      assert Hex(a)[0] == HexDigit(a[0] / 16) && Hex(a)[1] == HexDigit(a[0] % 16);
      assert Hex(b)[0] == HexDigit(b[0] / 16) && Hex(b)[1] == HexDigit(b[0] % 16);
      assert Hex(a)[2..] == Hex(a[1..]) && Hex(b)[2..] == Hex(b[1..]);
      HexInjective(a[1..], b[1..]);
      assert a == [a[0]] + a[1..] && b == [b[0]] + b[1..];
    }
  }

  lemma {:induction false} HexAppend(a: seq<byte>, b: seq<byte>)
    ensures Hex(a + b) == Hex(a) + Hex(b)
  {
    if a == [] {
      assert a + b == b;
    } else {
      assert (a + b)[1..] == a[1..] + b;
      HexAppend(a[1..], b);
    }
  }

  lemma {:induction false} WithoutDashesAppend(a: string, b: string)
    ensures WithoutDashes(a + b) == WithoutDashes(a) + WithoutDashes(b)
  {
    if a == "" {
      assert a + b == b;
    } else {
      assert (a + b)[1..] == a[1..] + b;
      WithoutDashesAppend(a[1..], b);
    }
  }

  lemma {:induction false} HexHasNoDash(bytes: seq<byte>)
    ensures forall i | 0 <= i < |Hex(bytes)| :: Hex(bytes)[i] != '-'
  {
    if bytes != [] {
      HexHasNoDash(bytes[1..]);
      assert forall i | 2 <= i < |Hex(bytes)| :: Hex(bytes)[i] == Hex(bytes[1..])[i - 2];
    }
  }

  lemma {:induction false} NothingToRemove(s: string)
    requires forall i | 0 <= i < |s| :: s[i] != '-'
    ensures WithoutDashes(s) == s
  {
    if s != "" {
      NothingToRemove(s[1..]);
    }
  }

  /** Exactly the dashes go. */
  lemma {:induction false} OnlyDashesGo(s: string)
    ensures multiset(WithoutDashes(s)) == multiset(s)['-' := 0]
  {
    if s != "" {
      OnlyDashesGo(s[1..]);
      assert s == [s[0]] + s[1..];
    }
  }

  lemma DashDropped(text: string)
    ensures WithoutDashes(text + "-") == WithoutDashes(text)
  {
    var dash: string := ['-'];
    assert dash[1..] == "";
    WithoutDashesAppend(text, dash);
  }

  lemma DashedPair(text: string, bytes: seq<byte>)
    ensures WithoutDashes(text + "-" + Hex(bytes)) == WithoutDashes(text) + Hex(bytes)
  {
    var dashed := text + "-";
    DashDropped(text);
    HexHasNoDash(bytes);
    NothingToRemove(Hex(bytes));
    WithoutDashesAppend(dashed, Hex(bytes));
  }

  lemma {:induction false} HexOfParts(id: seq<byte>)
    requires |id| == UUID_BINARY_SIZE
    ensures Hex(id) == Hex(id[..4]) + Hex(id[4..6]) + Hex(id[6..8]) + Hex(id[8..10]) + Hex(id[10..])
  {
    HexAppend(id[..4], id[4..6]);
    assert id[..4] + id[4..6] == id[..6];
    HexAppend(id[..6], id[6..8]);
    assert id[..6] + id[6..8] == id[..8];
    HexAppend(id[..8], id[8..10]);
    assert id[..8] + id[8..10] == id[..10];
    HexAppend(id[..10], id[10..]);
    assert id[..10] + id[10..] == id;
  }

  /** Dropping the dashes leaves exactly the 32 digits, so no two ids share a text, dashed or not. */
  lemma UuidTextDigits(id: seq<byte>)
    requires |id| == UUID_BINARY_SIZE
    ensures WithoutDashes(UuidText(id)) == Hex(id)
  {
    var t1 := Hex(id[..4]);
    var t2 := t1 + "-" + Hex(id[4..6]);
    var t3 := t2 + "-" + Hex(id[6..8]);
    var t4 := t3 + "-" + Hex(id[8..10]);
    HexHasNoDash(id[..4]);
    NothingToRemove(t1);
    DashedPair(t1, id[4..6]);
    DashedPair(t2, id[6..8]);
    DashedPair(t3, id[8..10]);
    DashedPair(t4, id[10..]);
    HexOfParts(id);
  }

  /** The canonical text has 36 characters, dashes at 8, 13, 18 and 23 and lowercase digits elsewhere. */
  lemma UuidTextShape(id: seq<byte>)
    requires |id| == 16
    ensures |UuidText(id)| == 36
    ensures forall i | 0 <= i < 36 ::
      if i == 8 || i == 13 || i == 18 || i == 23 then UuidText(id)[i] == '-' else IsLowerHex(UuidText(id)[i])
  {
    HexRoundTrip(id[..4]);
    HexRoundTrip(id[4..6]);
    HexRoundTrip(id[6..8]);
    HexRoundTrip(id[8..10]);
    HexRoundTrip(id[10..]);
  }

  /** Does the registered id `key` answer to the 16 bytes of a handshake? Its characters, dashes aside,
      must be 32 lowercase digits that spell them. */
  ghost predicate Answers(key: string, id: seq<byte>) {
    var digits := WithoutDashes(key);
    |digits| == 32 && AllLowerHex(digits) && FromHex(digits) == id
  }

  /** The comparison the code makes decides exactly that. */
  lemma AnswersIff(key: string, id: seq<byte>)
    requires |id| == UUID_BINARY_SIZE
    ensures Answers(key, id) <==> WithoutDashes(key) == WithoutDashes(UuidText(id))
  {
    UuidTextDigits(id);
    HexRoundTrip(id);
    if Answers(key, id) {
      HexOnto(WithoutDashes(key));
    }
  }

  /** The canonical text itself answers. */
  lemma CanonicalAnswers(id: seq<byte>)
    requires |id| == UUID_BINARY_SIZE
    ensures Answers(UuidText(id), id)
  {
    AnswersIff(UuidText(id), id);
  }

  /** An id rendered by `UuidText`, as `sendFiles` registers it, answers to its own bytes and to no others. */
  lemma RenderedIdsAreExact(registered: seq<byte>, id: seq<byte>)
    requires |registered| == |id| == UUID_BINARY_SIZE
    ensures Answers(UuidText(registered), id) <==> registered == id
    ensures UuidText(registered) == UuidText(id) <==> registered == id
  {
    AnswersIff(UuidText(registered), id);
    UuidTextDigits(registered);
    UuidTextDigits(id);
    HexInjective(registered, id);
  }

  /** Which registered key a handshake picks: the canonical text if it is registered, else some key
      equal to it up to dashes. */
  ghost predicate Picks(keys: set<string>, id: seq<byte>, key: string)
    requires |id| == UUID_BINARY_SIZE
  {
    && key in keys
    && Answers(key, id)
    && (UuidText(id) in keys ==> key == UuidText(id))
  }

  /** A table of rendered ids picks exactly one key for a registered id and none for any other. */
  lemma RenderedTableLookup(table: set<seq<byte>>, keys: set<string>, id: seq<byte>)
    requires |id| == UUID_BINARY_SIZE
    requires forall r :: r in table ==> |r| == UUID_BINARY_SIZE
    requires forall k :: k in keys <==> exists r :: r in table && |r| == UUID_BINARY_SIZE && k == UuidText(r)
    ensures forall key :: Picks(keys, id, key) <==> id in table && key == UuidText(id)
  {
    forall key | Picks(keys, id, key)
      ensures id in table && key == UuidText(id)
    {
      var r :| r in table && |r| == UUID_BINARY_SIZE && key == UuidText(r);
      RenderedIdsAreExact(r, id);
    }
    CanonicalAnswers(id);
  }

  /** The token is compared only when the session holds a full 32-byte one. */
  predicate TokenAccepted(registered: seq<byte>, sent: seq<byte>) {
    |registered| == TOKEN_SIZE ==> sent == registered
  }
}
