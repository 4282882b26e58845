/** The URL-safe base64 of RFC 4648, section 5, with its padding stripped and put back. */
module Base64Url {
  import opened Common
  import Utf8

  type byte = Utf8.byte

  type sextet = v: int | 0 <= v < 64

  // ---- bytes and sextets -----------------------------------------------------------------------

  function Four(x: byte, y: byte, z: byte): seq<sextet> {
    [x / 4, x % 4 * 16 + y / 16, y % 16 * 4 + z / 64, z % 64]
  }

  /** Three bytes are four sextets; a last one or two bytes are two or three, filled up with zero bits. */
  function Sextets(b: seq<byte>): seq<sextet> {
    if b == [] then []
    else if |b| == 1 then Four(b[0], 0, 0)[..2]
    else if |b| == 2 then Four(b[0], b[1], 0)[..3]
    else Four(b[0], b[1], b[2]) + Sextets(b[3..])
  }

  function Bytes(v: seq<sextet>): seq<byte> {
    if |v| < 2 then []
    else if |v| == 2 then [(v[0] as int) * 4 + v[1] / 16]
    else if |v| == 3 then [(v[0] as int) * 4 + v[1] / 16, (v[1] as int) % 16 * 16 + v[2] / 4]
    else [(v[0] as int) * 4 + v[1] / 16, (v[1] as int) % 16 * 16 + v[2] / 4, (v[2] as int) % 4 * 64 + v[3]]
         + Bytes(v[4..])
  }

  /** Three bytes cut into four sextets and joined again. */
  lemma FourJoin(x: byte, y: byte, z: byte)
    ensures var v := Four(x, y, z);
            (v[0] as int) * 4 + v[1] / 16 == x && (v[1] as int) % 16 * 16 + v[2] / 4 == y
            && (v[2] as int) % 4 * 64 + v[3] == z
  {
  }

  lemma BytesOfFour(x: byte, y: byte, z: byte, rest: seq<sextet>)
    ensures Bytes(Four(x, y, z) + rest) == [x, y, z] + Bytes(rest) && |Four(x, y, z) + rest| == 4 + |rest|
  {
    FourJoin(x, y, z);
    assert (Four(x, y, z) + rest)[4..] == rest;
  }

  lemma BytesOfTail(b: seq<byte>)
    requires 1 <= |b| <= 2
    ensures Bytes(Sextets(b)) == b && |Sextets(b)| == |b| + 1
  {
    FourJoin(b[0], if |b| == 1 then 0 else b[1], 0);
  }

  lemma {:induction false} BytesOfSextets(b: seq<byte>)
    ensures Bytes(Sextets(b)) == b && |Sextets(b)| % 4 != 1
  {
    hide Four;
    if 1 <= |b| <= 2 {
      BytesOfTail(b);
    } else if b != [] {
      BytesOfFour(b[0], b[1], b[2], Sextets(b[3..]));
      BytesOfSextets(b[3..]);
      assert b == [b[0], b[1], b[2]] + b[3..];
    }
  }

  // ---- sextets and text --------------------------------------------------------------------------

  function Digit(v: sextet): char {
    if v < 26 then 'A' + v as char
    else if v < 52 then 'a' + (v - 26) as char
    else if v < 62 then '0' + (v - 52) as char
    else if v == 62 then '-' else '_'
  }

  /** The digit's value. The decoder maps `-` and `_` to `+` and `/` first, so it takes those as well. */
  function SextetOf(c: char): Option<sextet> {
    if 'A' <= c <= 'Z' then Some((c - 'A') as int)
    else if 'a' <= c <= 'z' then Some((c - 'a') as int + 26)
    else if '0' <= c <= '9' then Some((c - '0') as int + 52)
    else if c == '-' || c == '+' then Some(62)
    else if c == '_' || c == '/' then Some(63)
    else None
  }

  function Written(v: seq<sextet>): string {
    if v == [] then "" else [Digit(v[0])] + Written(v[1..])
  }

  function Values(s: string): Option<seq<sextet>> {
    if s == "" then Some([])
    else
      var first :- SextetOf(s[0]);
      var rest :- Values(s[1..]);
      Some([first] + rest)
  }

  function Signs(n: nat): string {
    seq(n, i => '=')
  }

  /** The padding `n` digits call for. */
  function Padding(n: nat): string {
    Signs((4 - n % 4) % 4)
  }

  /** Without the `=` at its end. */
  function Stripped(s: string): string {
    if s != "" && s[|s| - 1] == '=' then Stripped(s[..|s| - 1]) else s
  }

  function Encoded(b: seq<byte>): string {
    Written(Sextets(b)) + Padding(|Sextets(b)|)
  }

  /** Strict decoding: digits of the alphabet only, never one more than a multiple of four, then exactly
      the padding they call for. */
  function Decoded(s: string): Option<seq<byte>> {
    var digits := Stripped(s);
    if s != digits + Padding(|digits|) || |digits| % 4 == 1 then None
    else
      var values :- Values(digits);
      Some(Bytes(values))
  }

  lemma DigitIsRead(v: sextet)
    ensures SextetOf(Digit(v)) == Some(v) && Digit(v) != '='
  {
  }

  lemma {:induction false} WrittenIsRead(v: seq<sextet>)
    ensures Values(Written(v)) == Some(v) && |Written(v)| == |v| && '=' !in Written(v)
  {
    if v != [] {
      DigitIsRead(v[0]);
      WrittenIsRead(v[1..]);
      assert Written(v)[1..] == Written(v[1..]);
      assert v == [v[0]] + v[1..];
    }
  }

  lemma {:induction false} StrippedOfPadded(s: string, n: nat)
    requires '=' !in s
    ensures Stripped(s + Signs(n)) == s
    decreases n
  {
    if n == 0 {
      assert s + Signs(0) == s;
    } else {
      assert (s + Signs(n))[..|s| + n - 1] == s + Signs(n - 1);
      StrippedOfPadded(s, n - 1);
    }
  }

  /** Stripping the padding loses nothing: the length of what is left says how much to put back. */
  lemma PaddingIsRecovered(b: seq<byte>)
    ensures var s := Stripped(Encoded(b)); '=' !in s && s + Padding(|s|) == Encoded(b)
  {
    WrittenIsRead(Sextets(b));
    StrippedOfPadded(Written(Sextets(b)), (4 - |Sextets(b)| % 4) % 4);
  }

  /** Decoding gives back what was encoded, for every sequence of bytes. */
  lemma DecodedEncoded(b: seq<byte>)
    ensures Decoded(Encoded(b)) == Some(b)
  {
    WrittenIsRead(Sextets(b));
    StrippedOfPadded(Written(Sextets(b)), (4 - |Sextets(b)| % 4) % 4);
    BytesOfSextets(b);
  }
}
