/** UTF-8 as section 4 of RFC 3629 defines it, and the incremental decoder that checks it chunk by
    chunk, keeping an unfinished sequence until more bytes arrive. */
module Utf8 {

  type byte = b: int | 0 <= b < 256

  /** Unicode scalar values. */
  type scalar = c: int | 0 <= c < 0xD800 || 0xE000 <= c < 0x11_0000

  /** The encoding of one character, section 3 of RFC 3629. */
  function Encode(c: scalar): seq<byte> {
    if c < 0x80 then [c]
    else if c < 0x800 then [0xC0 + c / 0x40, 0x80 + c % 0x40]
    else if c < 0x1_0000 then [0xE0 + c / 0x1000, 0x80 + c / 0x40 % 0x40, 0x80 + c % 0x40]
    else [0xF0 + c / 0x4_0000, 0x80 + c / 0x1000 % 0x40, 0x80 + c / 0x40 % 0x40, 0x80 + c % 0x40]
  }

  function EncodeAll(text: seq<scalar>): seq<byte> {
    if text == [] then [] else Encode(text[0]) + EncodeAll(text[1..])
  }

  /** The bytes are the encoding of some text. */
  ghost predicate IsUtf8(bytes: seq<byte>) {
    exists text :: EncodeAll(text) == bytes
  }

  // ---- the decoder -----------------------------------------------------------------------------

  datatype Head = Whole(length: nat) | Unfinished | Malformed

  predicate Tail(b: byte) {
    0x80 <= b <= 0xBF
  }

  /** Bytes of the sequence a lead byte announces; 0 for a byte that cannot lead. */
  function Announced(b: byte): nat {
    if b <= 0x7F then 1
    else if 0xC2 <= b <= 0xDF then 2
    else if 0xE0 <= b <= 0xEF then 3
    else if 0xF0 <= b <= 0xF4 then 4
    else 0
  }

  /** The second byte, restricted after E0, ED, F0 and F4. */
  predicate SecondAllowed(lead: byte, b: byte) {
    && Tail(b)
    && (lead == 0xE0 ==> 0xA0 <= b)
    && (lead == 0xED ==> b <= 0x9F)
    && (lead == 0xF0 ==> 0x90 <= b)
    && (lead == 0xF4 ==> b <= 0x8F)
  }

  function HeadOf(s: seq<byte>): Head
    requires s != []
  {
    var n := Announced(s[0]);
    if n == 0 then Malformed
    else if n == 1 then Whole(1)
    else if |s| == 1 then Unfinished
    else if !SecondAllowed(s[0], s[1]) then Malformed
    else if n == 2 then Whole(2)
    else if |s| == 2 then Unfinished
    else if !Tail(s[2]) then Malformed
    else if n == 3 then Whole(3)
    else if |s| == 3 then Unfinished
    else if !Tail(s[3]) then Malformed
    else Whole(4)
  }

  datatype Scanned = Pending(rest: seq<byte>) | Invalid

  /** Decodes as far as possible; what is left is an unfinished sequence. */
  function Scan(s: seq<byte>): Scanned
    decreases |s|
  {
    if s == [] then Pending([])
    else match HeadOf(s)
         case Whole(n) => Scan(s[n..])
         case Unfinished => Pending(s)
         case Malformed => Invalid
  }

  /** One call of the incremental decoder: the bytes it kept, then the new chunk. */
  function Feed(state: Scanned, chunk: seq<byte>): Scanned {
    if state.Invalid? then Invalid else Scan(state.rest + chunk)
  }

  lemma HeadIsStable(a: seq<byte>, b: seq<byte>)
    requires a != []
    ensures !HeadOf(a).Unfinished? ==> HeadOf(a + b) == HeadOf(a)
    ensures HeadOf(a).Whole? ==> HeadOf(a).length <= |a|
  {
  }

  /** Decoding in two pieces is decoding the whole. */
  lemma {:induction false} ScanSplits(a: seq<byte>, b: seq<byte>)
    ensures Scan(a + b) == Feed(Scan(a), b)
    decreases |a|
  {
    if a == [] {
      assert a + b == b && [] + b == b;
    } else {
      HeadIsStable(a, b);
      match HeadOf(a)
      case Whole(n) =>
        assert (a + b)[n..] == a[n..] + b;
        ScanSplits(a[n..], b);
      case Unfinished =>
      case Malformed =>
    }
  }

  /** What the decoder keeps back is an unfinished sequence, or nothing. */
  predicate Settled(state: Scanned) {
    state.Pending? ==> Scan(state.rest) == state
  }

  lemma {:induction false} ScanSettles(s: seq<byte>)
    ensures Settled(Scan(s))
    decreases |s|
  {
    if s != [] && HeadOf(s).Whole? {
      ScanSettles(s[HeadOf(s).length..]);
    }
  }

  // ---- decoder and definition agree ---------------------------------------------------------------

  lemma EncodedHead(c: scalar, rest: seq<byte>)
    ensures HeadOf(Encode(c) + rest) == Whole(|Encode(c)|)
  {
    EncodedAlone(c);
    HeadIsStable(Encode(c), rest);
  }

  lemma EncodedAlone(c: scalar)
    ensures HeadOf(Encode(c)) == Whole(|Encode(c)|)
  {
    var s := Encode(c);
    assert |s| == 1 ==> Announced(s[0]) == 1;
    assert |s| == 2 ==> Announced(s[0]) == 2 && SecondAllowed(s[0], s[1]);
    assert |s| == 3 ==> Announced(s[0]) == 3 && SecondAllowed(s[0], s[1]) && Tail(s[2]);
    assert |s| == 4 ==> Announced(s[0]) == 4 && SecondAllowed(s[0], s[1]) && Tail(s[2]) && Tail(s[3]);
  }

  /** A complete sequence of allowed bytes is the encoding of a scalar value. */
  lemma WholeIsEncoded(s: seq<byte>) returns (c: scalar)
    requires s != [] && HeadOf(s).Whole?
    ensures HeadOf(s).length <= |s| && Encode(c) == s[..HeadOf(s).length]
  {
    match HeadOf(s).length
    case 1 => c := s[0];
    case 2 => c := TwoBytes(s[0], s[1]);
    case 3 => c := ThreeBytes(s[0], s[1], s[2]);
    case _ => c := FourBytes(s[0], s[1], s[2], s[3]);
  }

  lemma TwoBytes(a: byte, b: byte) returns (c: scalar)
    requires 0xC2 <= a <= 0xDF && Tail(b)
    ensures Encode(c) == [a, b]
  {
    c := (a as int - 0xC0) * 0x40 + (b as int - 0x80);
  }

  lemma ThreeBytes(a: byte, b: byte, d: byte) returns (c: scalar)
    requires 0xE0 <= a <= 0xEF && SecondAllowed(a, b) && Tail(d)
    ensures Encode(c) == [a, b, d]
  {
    c := (a as int - 0xE0) * 0x1000 + (b as int - 0x80) * 0x40 + (d as int - 0x80);
    assert c >= 0x800;
    assert c / 0x40 == (a as int - 0xE0) * 0x40 + (b as int - 0x80);
    assert c / 0x1000 == a as int - 0xE0;
  }

  lemma FourBytes(a: byte, b: byte, d: byte, e: byte) returns (c: scalar)
    requires 0xF0 <= a <= 0xF4 && SecondAllowed(a, b) && Tail(d) && Tail(e)
    ensures Encode(c) == [a, b, d, e]
  {
    c := (a as int - 0xF0) * 0x4_0000 + (b as int - 0x80) * 0x1000 + (d as int - 0x80) * 0x40 + (e as int - 0x80);
    assert c >= 0x1_0000;
    assert c / 0x40 == (a - 0xF0) * 0x1000 + (b - 0x80) * 0x40 + (d - 0x80);
    assert c / 0x1000 == (a - 0xF0) * 0x40 + (b - 0x80);
    assert c / 0x4_0000 == a - 0xF0;
  }

  /** The decoder finishes with nothing pending exactly on the encodings of texts. */
  lemma {:induction false} ScanDecidesUtf8(s: seq<byte>)
    ensures Scan(s) == Pending([]) <==> IsUtf8(s)
    decreases |s|
  {
    if IsUtf8(s) {
      var text :| EncodeAll(text) == s;
      EncodedScans(text);
    }
    if Scan(s) == Pending([]) {
      var text := ScannedIsText(s);
      assert EncodeAll(text) == s;
    }
  }

  lemma {:induction false} EncodedScans(text: seq<scalar>)
    ensures Scan(EncodeAll(text)) == Pending([])
    decreases |text|
  {
    if text != [] {
      var rest := EncodeAll(text[1..]);
      EncodedHead(text[0], rest);
      assert (Encode(text[0]) + rest)[|Encode(text[0])|..] == rest;
      EncodedScans(text[1..]);
    }
  }

  lemma EncodeAllOfMore(c: scalar, more: seq<scalar>, s: seq<byte>, n: nat)
    requires n <= |s| && Encode(c) == s[..n] && EncodeAll(more) == s[n..]
    ensures EncodeAll([c] + more) == s
  {
  }

  lemma {:induction false} ScannedIsText(s: seq<byte>) returns (text: seq<scalar>)
    requires Scan(s) == Pending([])
    ensures EncodeAll(text) == s
    decreases |s|
  {
    if s == [] {
      text := [];
    } else {
      var n := HeadOf(s).length;
      var c := WholeIsEncoded(s);
      var more := ScannedIsText(s[n..]);
      text := [c] + more;
      EncodeAllOfMore(c, more, s, n);
    }
  }

  // ---- how early the decoder refuses ------------------------------------------------------------------

  /** The bytes can still become the encoding of a text. */
  ghost predicate Continuable(bytes: seq<byte>) {
    exists more :: IsUtf8(bytes + more)
  }

  /** Bytes that complete an unfinished sequence. */
  lemma Completed(s: seq<byte>) returns (more: seq<byte>)
    requires s != [] && HeadOf(s).Unfinished?
    ensures HeadOf(s + more) == Whole(|s + more|)
  {
    var n := Announced(s[0]);
    var second: byte := if s[0] == 0xE0 then 0xA0 else if s[0] == 0xF0 then 0x90 else 0x80;
    if |s| == 1 {
      more := if n == 2 then [second] else if n == 3 then [second, 0x80] else [second, 0x80, 0x80];
    } else if |s| == 2 {
      more := if n == 3 then [0x80] else [0x80, 0x80];
    } else {
      more := [0x80];
    }
  }

  lemma PendingIsUnfinished(s: seq<byte>)
    requires s != [] && Scan(s) == Pending(s)
    ensures HeadOf(s).Unfinished?
    decreases |s|
  {
    if HeadOf(s).Whole? {
      ScanShortens(s[HeadOf(s).length..]);
    }
  }

  lemma {:induction false} ScanShortens(s: seq<byte>)
    ensures Scan(s).Pending? ==> |Scan(s).rest| <= |s|
    decreases |s|
  {
    if s != [] && HeadOf(s).Whole? {
      HeadIsStable(s, []);
      ScanShortens(s[HeadOf(s).length..]);
    }
  }

  /** The decoder refuses as early as can be: exactly when no further bytes could make a text. */
  lemma ScanRefusesExactlyWhen(s: seq<byte>)
    ensures Scan(s).Invalid? <==> !Continuable(s)
  {
    if Continuable(s) {
      var more :| IsUtf8(s + more);
      ScanDecidesUtf8(s + more);
      ScanSplits(s, more);
    }
    if Scan(s).Pending? {
      var rest, more := Scan(s).rest, [];
      ScanSettles(s);
      if rest != [] {
        PendingIsUnfinished(rest);
        more := Completed(rest);
        assert (rest + more)[|rest + more|..] == [];
      } else {
        assert rest + more == [];
      }
      ScanSplits(s, more);
      assert Scan(rest + more) == Pending([]);
      ScanDecidesUtf8(s + more);
    }
  }
}
