/** The opaque page cursor: a JSON object with the last row's time stamp and id, in URL-safe base64. */
module TicketCursor {
  import opened Common
  import opened CursorText
  import opened Base64Url

  const IDS: nat := 0x1_0000_0000_0000_0000_0000_0000_0000_0000

  datatype Cursor = Cursor(createdAt: Stamp, ticketId: nat)

  predicate ValidCursor(c: Cursor) {
    ValidStamp(c.createdAt) && c.ticketId < IDS
  }

  const OPENING := "{\"created_at\":\""
  const BETWEEN := "\",\"ticket_id\":\""
  const CLOSING := "\"}"

  // ---- the id --------------------------------------------------------------------------------------

  function Hyphenated(h: string): string
    requires |h| == 32
  {
    h[..8] + ("-" + (h[8..12] + ("-" + (h[12..16] + ("-" + (h[16..20] + ("-" + h[20..])))))))
  }

  function Uuid(id: nat): string {
    var h := Numeral(id, 32, true);
    if |h| == 32 then Hyphenated(h) else h
  }

  function Unhyphened(s: string): string {
    if s == "" then "" else (if s[0] == '-' then "" else [s[0]]) + Unhyphened(s[1..])
  }

  /** Hyphens count for nothing; what is left must be 32 hexadecimal digits. */
  function UuidOf(s: string): Option<nat> {
    if |Unhyphened(s)| == 32 then ValueOf(Unhyphened(s), true) else None
  }

  // ---- the payload -----------------------------------------------------------------------------------

  function Payload(c: Cursor): string {
    OPENING + IsoFormat(c.createdAt, BETWEEN + (Uuid(c.ticketId) + CLOSING))
  }

  /** The text up to the next quotation mark. */
  function ReadString(s: string): Read<string> {
    if s == "" || s[0] == '"' then Read("", s)
    else
      var tail := ReadString(s[1..]);
      Read([s[0]] + tail.value, tail.rest)
  }

  function ReadPayload(s: string): Option<Cursor> {
    var s :- ReadMark(s, OPENING);
    var createdAt :- ReadStamp(s);
    var s :- ReadMark(createdAt.rest, BETWEEN);
    var text := ReadString(s);
    var id :- UuidOf(text.value);
    if text.rest == CLOSING then Some(Cursor(createdAt.value, id)) else None
  }

  predicate Ascii(s: string) {
    forall i :: 0 <= i < |s| ==> s[i] < 128 as char
  }

  function AsciiBytes(s: string): seq<byte>
    requires Ascii(s)
  {
    seq(|s|, i requires 0 <= i < |s| => s[i] as int)
  }

  function AsciiText(b: seq<byte>): Option<string> {
    if forall i :: 0 <= i < |b| ==> b[i] < 128 then Some(seq(|b|, i requires 0 <= i < |b| => b[i] as char)) else None
  }

  // ---- the payload is ASCII --------------------------------------------------------------------------

  predicate Plain(c: char) {
    '0' <= c <= '9' || 'a' <= c <= 'f'
  }

  lemma {:induction false} NumeralIsPlain(n: nat, width: nat, hex: bool)
    ensures |Numeral(n, width, hex)| == width && forall i :: 0 <= i < width ==> Plain(Numeral(n, width, hex)[i])
    decreases width
  {
    if width > 0 {
      NumeralIsPlain(Quotient(n, hex), width - 1, hex);
    }
  }

  lemma UuidIsPlain(id: nat)
    ensures forall i :: 0 <= i < |Uuid(id)| ==> Plain(Uuid(id)[i]) || Uuid(id)[i] == '-'
  {
    NumeralIsPlain(id, 32, true);
  }

  lemma JoinIsAscii(a: string, b: string)
    requires Ascii(a) && Ascii(b)
    ensures Ascii(a + b)
  {
  }

  lemma DecimalIsAscii(n: nat, width: nat, rest: string)
    requires Ascii(rest)
    ensures Ascii(Decimal(n, width) + rest)
  {
    NumeralIsPlain(n, width, false);
  }

  /** A number, a mark, and the rest. */
  lemma FieldIsAscii(n: nat, width: nat, mark: string, rest: string)
    requires Ascii(mark) && Ascii(rest)
    ensures Ascii(Decimal(n, width) + (mark + rest))
  {
    JoinIsAscii(mark, rest);
    DecimalIsAscii(n, width, mark + rest);
  }

  lemma TailIsAscii(second: nat, micro: nat, rest: string)
    requires Ascii(rest)
    ensures Ascii(Fraction(micro, rest)) && Ascii(Tail(second, micro, rest))
  {
    DecimalIsAscii(micro, 6, rest);
    DecimalIsAscii(second, 2, Fraction(micro, rest));
  }

  lemma OffsetIsAscii(offset: Option<int>, rest: string)
    requires Ascii(rest)
    ensures Ascii(Offset(offset, rest))
  {
    if offset.Some? {
      var u := Abs(offset.value);
      var seconds := u / 1_000_000;
      var tail := Tail(seconds % 60, u % 1_000_000, rest);
      TailIsAscii(seconds % 60, u % 1_000_000, rest);
      DecimalIsAscii(seconds / 60 % 60, 2, tail);
      DecimalIsAscii(seconds / 3600, 2, ":" + (Decimal(seconds / 60 % 60, 2) + tail));
    }
  }

  lemma TimeIsAscii(t: Stamp, rest: string)
    requires Ascii(rest)
    ensures Ascii(IsoTime(t, rest))
  {
    assert Ascii(":");
    hide Ascii, Decimal, Fraction, Offset;
    OffsetIsAscii(t.offset, rest);
    var end := Fraction(t.micro, Offset(t.offset, rest));
    TailIsAscii(0, t.micro, Offset(t.offset, rest));
    DecimalIsAscii(t.second, 2, end);
    FieldIsAscii(t.minute, 2, ":", Decimal(t.second, 2) + end);
    FieldIsAscii(t.hour, 2, ":", Decimal(t.minute, 2) + (":" + (Decimal(t.second, 2) + end)));
  }

  lemma FormatIsAscii(t: Stamp, rest: string)
    requires Ascii(rest)
    ensures Ascii(IsoFormat(t, rest))
  {
    assert Ascii("T") && Ascii("-");
    hide Ascii, Decimal, IsoTime;
    TimeIsAscii(t, rest);
    var time := IsoTime(t, rest);
    FieldIsAscii(t.day, 2, "T", time);
    FieldIsAscii(t.month, 2, "-", Decimal(t.day, 2) + ("T" + time));
    FieldIsAscii(t.year, 4, "-", Decimal(t.month, 2) + ("-" + (Decimal(t.day, 2) + ("T" + time))));
  }

  lemma PayloadIsAscii(c: Cursor)
    ensures Ascii(Payload(c))
  {
    hide Uuid, IsoFormat;
    UuidIsPlain(c.ticketId);
    var rest := BETWEEN + (Uuid(c.ticketId) + CLOSING);
    FormatIsAscii(c.createdAt, rest);
    JoinIsAscii(OPENING, IsoFormat(c.createdAt, rest));
  }

  // ---- the two functions -----------------------------------------------------------------------------

  function EncodeTicketCursor(c: Cursor): string {
    PayloadIsAscii(c);
    Stripped(Encoded(AsciiBytes(Payload(c))))
  }

  function DecodeTicketCursor(encoded: string): Option<Cursor> {
    var bytes :- Decoded(encoded + Padding(|encoded|));
    var text :- AsciiText(bytes);
    var c :- ReadPayload(text);
    if c.createdAt.offset.None? then None else Some(c)
  }

  // ---- the payload is read back ----------------------------------------------------------------------

  lemma {:induction false} UnhyphenedOfConcat(a: string, b: string)
    ensures Unhyphened(a + b) == Unhyphened(a) + Unhyphened(b)
  {
    if a == "" {
      assert a + b == b;
    } else {
      assert (a + b)[1..] == a[1..] + b;
      UnhyphenedOfConcat(a[1..], b);
    }
  }

  lemma {:induction false} UnhyphenedPlain(s: string)
    requires '-' !in s
    ensures Unhyphened(s) == s
  {
    if s != "" {
      UnhyphenedPlain(s[1..]);
    }
  }

  lemma UuidIsRead(id: nat)
    requires id < IDS
    ensures UuidOf(Uuid(id)) == Some(id)
  {
    var h := Numeral(id, 32, true);
    NumeralIsPlain(id, 32, true);
    HexDigitsSuffice();
    NumeralIsRead(id, 32, true);
    HyphensVanish(h);
  }

  lemma HexDigitsSuffice()
    ensures Power(32, true) == IDS
  {
    assert Power(8, true) == 0x1_0000_0000;
    assert Power(16, true) == 0x1_0000_0000_0000_0000;
    assert Power(24, true) == 0x1_0000_0000_0000_0000_0000_0000;
  }

  lemma HyphenVanishes(a: string, rest: string)
    requires '-' !in a
    ensures Unhyphened(a + ("-" + rest)) == a + Unhyphened(rest)
  {
    UnhyphenedPlain(a);
    UnhyphenedOfConcat(a, "-" + rest);
    HyphenFirst("-" + rest, rest);
  }

  lemma HyphenFirst(s: string, rest: string)
    requires s == "-" + rest
    ensures Unhyphened(s) == Unhyphened(rest)
  {
  }

  lemma HyphensVanish(h: string)
    requires |h| == 32 && '-' !in h
    ensures Unhyphened(Hyphenated(h)) == h
  {
    hide Unhyphened;
    var d := h[16..20] + ("-" + h[20..]);
    var c := h[12..16] + ("-" + d);
    var b := h[8..12] + ("-" + c);
    UnhyphenedPlain(h[20..]);
    HyphenVanishes(h[16..20], h[20..]);
    HyphenVanishes(h[12..16], d);
    HyphenVanishes(h[8..12], c);
    HyphenVanishes(h[..8], b);
    assert h[..8] + (h[8..12] + (h[12..16] + (h[16..20] + h[20..]))) == h;
  }

  lemma {:induction false} StringIsRead(s: string, rest: string)
    requires '"' !in s && (rest == "" || rest[0] == '"')
    ensures ReadString(s + rest) == Read(s, rest)
  {
    if s == "" {
      assert s + rest == rest;
    } else {
      assert (s + rest)[1..] == s[1..] + rest;
      StringIsRead(s[1..], rest);
      assert [s[0]] + s[1..] == s;
    }
  }

  /** Every valid cursor, naive ones included, is read back from its payload. */
  lemma PayloadIsRead(c: Cursor)
    requires ValidCursor(c)
    ensures ReadPayload(Payload(c)) == Some(c)
  {
    var id := Uuid(c.ticketId) + CLOSING;
    MarkIsRead(OPENING, IsoFormat(c.createdAt, BETWEEN + id));
    StampIsRead(c.createdAt, BETWEEN + id);
    MarkIsRead(BETWEEN, id);
    UuidIsPlain(c.ticketId);
    StringIsRead(Uuid(c.ticketId), CLOSING);
    UuidIsRead(c.ticketId);
  }

  lemma AsciiIsRead(s: string)
    requires Ascii(s)
    ensures AsciiText(AsciiBytes(s)) == Some(s)
  {
    assert AsciiText(AsciiBytes(s)).value == s;
  }

  // ---- the cursor ------------------------------------------------------------------------------------

  /** Decoding an encoded cursor gives it back if it knows its time zone, and refuses it if it is naive. */
  lemma CursorIsRead(c: Cursor)
    requires ValidCursor(c)
    ensures DecodeTicketCursor(EncodeTicketCursor(c)) == if c.createdAt.offset.Some? then Some(c) else None
  {
    PayloadIsAscii(c);
    var bytes := AsciiBytes(Payload(c));
    PaddingIsRecovered(bytes);
    DecodedEncoded(bytes);
    AsciiIsRead(Payload(c));
    PayloadIsRead(c);
  }

  /** Different cursors have different texts, naive ones included. */
  lemma EncodeIsInjective(c: Cursor, d: Cursor)
    requires ValidCursor(c) && ValidCursor(d)
    ensures EncodeTicketCursor(c) == EncodeTicketCursor(d) ==> c == d
  {
    PayloadIsAscii(c);
    PayloadIsAscii(d);
    var b, e := AsciiBytes(Payload(c)), AsciiBytes(Payload(d));
    PaddingIsRecovered(b);
    PaddingIsRecovered(e);
    DecodedEncoded(b);
    DecodedEncoded(e);
    AsciiIsRead(Payload(c));
    AsciiIsRead(Payload(d));
    PayloadIsRead(c);
    PayloadIsRead(d);
  }

  lemma {:induction false} NumbersFit(s: string, hex: bool)
    ensures ValueOf(s, hex).Some? ==> ValueOf(s, hex).value < Power(|s|, hex)
  {
    if s != "" {
      NumbersFit(s[..|s| - 1], hex);
    }
  }

  /** Whatever text a client sends, a cursor that is accepted is valid and knows its time zone. */
  lemma AcceptedIsValidAndAware(encoded: string)
    ensures var c := DecodeTicketCursor(encoded); c.Some? ==> ValidCursor(c.value) && c.value.createdAt.offset.Some?
  {
    if DecodeTicketCursor(encoded).Some? {
      var bytes := Decoded(encoded + Padding(|encoded|)).value;
      var text := AsciiText(bytes).value;
      var s := ReadMark(text, OPENING).value;
      var id := ReadString(ReadMark(ReadStamp(s).value.rest, BETWEEN).value).value;
      NumbersFit(Unhyphened(id), true);
      HexDigitsSuffice();
    }
  }

  // ---- nothing but a cursor is accepted ----------------------------------------------------------------

  /** `rest` is what is left of `s` after some of it was read. */
  predicate Left(s: string, rest: string) {
    |rest| <= |s| && s[|s| - |rest|..] == rest
  }

  lemma LeftOfLeft(s: string, t: string, rest: string)
    requires Left(s, t) && Left(t, rest)
    ensures Left(s, rest)
  {
    assert s[|s| - |t|..][|t| - |rest|..] == s[|s| - |rest|..];
  }

  lemma NumberLeaves(s: string, width: nat)
    ensures ReadNumber(s, width).Some? ==> Left(s, ReadNumber(s, width).value.rest)
  {
  }

  lemma FractionLeaves(s: string)
    ensures ReadFraction(s).Some? ==> Left(s, ReadFraction(s).value.rest)
  {
    if ReadMark(s, ".").Some? && ReadFraction(s).Some? {
      NumberLeaves(s[1..], 6);
      LeftOfLeft(s, s[1..], ReadFraction(s).value.rest);
    }
  }

  lemma SecondsLeave(s: string)
    ensures ReadSeconds(s).Some? ==> Left(s, ReadSeconds(s).value.rest)
  {
    if ReadMark(s, ":").Some? && ReadSeconds(s).Some? {
      var t := ReadNumber(s[1..], 2).value.rest;
      FractionLeaves(t);
      LeftOfLeft(s, t, ReadSeconds(s).value.rest);
    }
  }

  lemma ClockLeaves(s: string)
    ensures ReadClock(s).Some? ==> Left(s, ReadClock(s).value.rest)
  {
    if ReadClock(s).Some? {
      var minute := ReadNumber(s[2..][1..], 2).value;
      SecondsLeave(minute.rest);
      LeftOfLeft(s, minute.rest, ReadClock(s).value.rest);
    }
  }

  lemma MarkLeaves(s: string, mark: string)
    ensures ReadMark(s, mark).Some? ==> Left(s, ReadMark(s, mark).value) && s == mark + ReadMark(s, mark).value
    ensures Left(s, s)
  {
  }

  lemma OffsetLeaves(s: string)
    ensures ReadOffset(s).Some? ==> Left(s, ReadOffset(s).value.rest)
  {
    hide Left, ReadClock, ReadMark;
    var zulu, plus, minus := ReadMark(s, "Z"), ReadMark(s, "+"), ReadMark(s, "-");
    MarkLeaves(s, "Z");
    MarkLeaves(s, "+");
    MarkLeaves(s, "-");
    var signed := if plus.Some? then plus else minus;
    if ReadOffset(s).Some? && zulu.None? && signed.Some? {
      ClockLeaves(signed.value);
      LeftOfLeft(s, signed.value, ReadOffset(s).value.rest);
    }
  }

  /** A number, then a mark. */
  lemma FieldLeaves(s: string, width: nat, mark: string)
    requires ReadNumber(s, width).Some? && ReadMark(ReadNumber(s, width).value.rest, mark).Some?
    ensures Left(s, ReadMark(ReadNumber(s, width).value.rest, mark).value)
  {
    var t := ReadNumber(s, width).value.rest;
    hide ReadNumber, ReadMark, Left;
    NumberLeaves(s, width);
    MarkLeaves(t, mark);
    LeftOfLeft(s, t, ReadMark(t, mark).value);
  }

  lemma DateLeaves(s: string)
    ensures ReadDate(s).Some? ==> Left(s, ReadDate(s).value.rest)
  {
    if ReadDate(s).Some? {
      var a := ReadMark(ReadNumber(s, 4).value.rest, "-").value;
      var b := ReadMark(ReadNumber(a, 2).value.rest, "-").value;
      hide ReadNumber, ReadMark, Left;
      FieldLeaves(s, 4, "-");
      FieldLeaves(a, 2, "-");
      NumberLeaves(b, 2);
      LeftOfLeft(s, a, b);
      LeftOfLeft(s, b, ReadDate(s).value.rest);
    }
  }

  lemma TimeLeaves(s: string)
    ensures ReadTime(s).Some? ==> Left(s, ReadTime(s).value.rest)
  {
    if ReadTime(s).Some? {
      var a := ReadMark(ReadNumber(s, 2).value.rest, ":").value;
      var b := ReadMark(ReadNumber(a, 2).value.rest, ":").value;
      var c := ReadNumber(b, 2).value.rest;
      hide ReadNumber, ReadMark, ReadFraction, Left;
      FieldLeaves(s, 2, ":");
      FieldLeaves(a, 2, ":");
      NumberLeaves(b, 2);
      FractionLeaves(c);
      LeftOfLeft(s, a, b);
      LeftOfLeft(s, b, c);
      LeftOfLeft(s, c, ReadTime(s).value.rest);
    }
  }

  lemma StampLeaves(s: string)
    ensures ReadStamp(s).Some? ==> Left(s, ReadStamp(s).value.rest)
  {
    hide ReadDate, ReadTime, ReadOffset, ReadMark, Left, ValidStamp;
    if ReadStamp(s).Some? {
      var date := ReadDate(s).value.rest;
      var after := ReadMark(date, "T").value;
      var time := ReadTime(after).value.rest;
      DateLeaves(s);
      MarkLeaves(date, "T");
      TimeLeaves(after);
      OffsetLeaves(time);
      LeftOfLeft(s, date, after);
      LeftOfLeft(s, after, time);
      LeftOfLeft(s, time, ReadStamp(s).value.rest);
    }
  }

  lemma {:induction false} StringLeaves(s: string)
    ensures s == ReadString(s).value + ReadString(s).rest && '"' !in ReadString(s).value
  {
    if s != "" && s[0] != '"' {
      StringLeaves(s[1..]);
    }
  }

  /** A text that is accepted is, decoded, exactly a stamp and an id within the cursor's own frame: nothing
      before, between or after, and the cursor is what these two say. */
  lemma AcceptedIsFramed(encoded: string) returns (stamp: string, id: string)
    requires DecodeTicketCursor(encoded).Some?
    ensures var c, bytes := DecodeTicketCursor(encoded).value, Decoded(encoded + Padding(|encoded|));
            && bytes.Some? && AsciiText(bytes.value) == Some(OPENING + stamp + BETWEEN + id + CLOSING)
            && (forall i :: 0 <= i < |bytes.value| ==> bytes.value[i] < 128)
            && UuidOf(id) == Some(c.ticketId) && '"' !in id
            && ReadStamp(stamp + (BETWEEN + (id + CLOSING))) == Some(Read(c.createdAt, BETWEEN + (id + CLOSING)))
  {
    var text := AsciiText(Decoded(encoded + Padding(|encoded|)).value).value;
    hide Decoded, Padding, AsciiText;
    stamp, id := PayloadIsFramed(text);
    AsciiIsBelow(Decoded(encoded + Padding(|encoded|)).value);
  }

  lemma AsciiIsBelow(b: seq<byte>)
    requires AsciiText(b).Some?
    ensures forall i :: 0 <= i < |b| ==> b[i] < 128
  {
  }

  lemma PayloadIsFramed(text: string) returns (stamp: string, id: string)
    requires ReadPayload(text).Some?
    ensures text == OPENING + stamp + BETWEEN + id + CLOSING
    ensures UuidOf(id) == Some(ReadPayload(text).value.ticketId) && '"' !in id
    ensures ReadStamp(stamp + (BETWEEN + (id + CLOSING)))
         == Some(Read(ReadPayload(text).value.createdAt, BETWEEN + (id + CLOSING)))
  {
    hide ReadStamp, UuidOf, ReadString, ReadMark;
    var s := ReadMark(text, OPENING).value;
    var rest := ReadStamp(s).value.rest;
    var t := ReadMark(rest, BETWEEN).value;
    MarkLeaves(text, OPENING);
    StampLeaves(s);
    MarkLeaves(rest, BETWEEN);
    StringLeaves(t);
    stamp := s[..|s| - |rest|];
    id := ReadString(t).value;
    assert s == stamp + rest;
    hide Left;
    assert text == OPENING + (stamp + (BETWEEN + (id + CLOSING)));
  }
}
