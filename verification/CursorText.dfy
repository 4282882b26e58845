/** The text inside a page cursor: a time stamp in ISO 8601 form and a UUID, between the fixed parts of a
    JSON object, each with a reader that takes it from the front of a longer text. */
module CursorText {
  import opened Common

  datatype Read<T> = Read(value: T, rest: string)

  // ---- numerals ----------------------------------------------------------------------------------

  function DigitChar(d: nat): char
    requires d < 16
  {
    if d < 10 then '0' + d as char else 'a' + (d - 10) as char
  }

  function DigitOf(c: char): Option<nat> {
    if '0' <= c <= '9' then Some((c - '0') as nat)
    else if 'a' <= c <= 'f' then Some((c - 'a') as nat + 10)
    else if 'A' <= c <= 'F' then Some((c - 'A') as nat + 10)
    else None
  }

  function Radix(hex: bool): nat {
    if hex then 16 else 10
  }

  function Times(n: nat, hex: bool): nat {
    if hex then 16 * n else 10 * n
  }

  function Quotient(n: nat, hex: bool): nat {
    if hex then n / 16 else n / 10
  }

  function Remainder(n: nat, hex: bool): (r: nat)
    ensures r < Radix(hex)
  {
    if hex then n % 16 else n % 10
  }

  /** `width` digits of `n`, leading zeros included. */
  function Numeral(n: nat, width: nat, hex: bool): string {
    if width == 0 then "" else Numeral(Quotient(n, hex), width - 1, hex) + [DigitChar(Remainder(n, hex))]
  }

  function ValueOf(s: string, hex: bool): Option<nat> {
    if s == "" then Some(0)
    else
      var most :- ValueOf(s[..|s| - 1], hex);
      var last :- DigitOf(s[|s| - 1]);
      if last < Radix(hex) then Some(Times(most, hex) + last) else None
  }

  function Power(width: nat, hex: bool): nat {
    if width == 0 then 1 else Times(Power(width - 1, hex), hex)
  }

  lemma DigitIsRead(d: nat)
    requires d < 16
    ensures DigitOf(DigitChar(d)) == Some(d)
  {
  }

  lemma {:induction false} NumeralIsRead(n: nat, width: nat, hex: bool)
    requires n < Power(width, hex)
    ensures |Numeral(n, width, hex)| == width && ValueOf(Numeral(n, width, hex), hex) == Some(n)
    decreases width
  {
    if width > 0 {
      NumeralIsRead(Quotient(n, hex), width - 1, hex);
      DigitIsRead(Remainder(n, hex));
      var s := Numeral(n, width, hex);
      assert s[..|s| - 1] == Numeral(Quotient(n, hex), width - 1, hex);
    }
  }

  function ReadNumber(s: string, width: nat): Option<Read<nat>> {
    if |s| < width then None
    else
      var n :- ValueOf(s[..width], false);
      Some(Read(n, s[width..]))
  }

  function ReadMark(s: string, mark: string): Option<string> {
    if mark <= s then Some(s[|mark|..]) else None
  }

  function Decimal(n: nat, width: nat): string {
    Numeral(n, width, false)
  }

  lemma DecimalIsRead(n: nat, width: nat, rest: string)
    requires n < Power(width, false)
    ensures ReadNumber(Decimal(n, width) + rest, width) == Some(Read(n, rest))
  {
    NumeralIsRead(n, width, false);
    var s := Decimal(n, width) + rest;
    assert s[..width] == Decimal(n, width) && s[width..] == rest;
  }

  lemma MarkIsRead(mark: string, rest: string)
    ensures ReadMark(mark + rest, mark) == Some(rest)
  {
  }

  // ---- time stamps ---------------------------------------------------------------------------------

  /** A date and time with an offset from UTC in microseconds, or none: then it is naive. */
  datatype Stamp = Stamp(
    year: nat, month: nat, day: nat,
    hour: nat, minute: nat, second: nat, micro: nat,
    offset: Option<int>)

  predicate Leap(year: nat) {
    year % 4 == 0 && (year % 100 != 0 || year % 400 == 0)
  }

  function DaysIn(year: nat, month: nat): nat {
    if month == 2 then (if Leap(year) then 29 else 28)
    else if month == 4 || month == 6 || month == 9 || month == 11 then 30
    else 31
  }

  const DAY: int := 86_400_000_000

  predicate ValidTime(hour: nat, minute: nat, second: nat, micro: nat) {
    hour < 24 && minute < 60 && second < 60 && micro < 1_000_000
  }

  predicate ValidStamp(t: Stamp) {
    && 1 <= t.year <= 9999 && 1 <= t.month <= 12 && 1 <= t.day <= DaysIn(t.year, t.month)
    && ValidTime(t.hour, t.minute, t.second, t.micro)
    && (t.offset.Some? ==> -DAY < t.offset.value < DAY)
  }

  /** The fraction is written only when there is one. */
  function Fraction(micro: nat, rest: string): string {
    if micro == 0 then rest else "." + (Decimal(micro, 6) + rest)
  }

  function ReadFraction(s: string): Option<Read<nat>> {
    var dot := ReadMark(s, ".");
    if dot.None? then Some(Read(0, s)) else ReadNumber(dot.value, 6)
  }

  function Abs(u: int): nat {
    if u < 0 then -u else u
  }

  function Tail(second: nat, micro: nat, rest: string): string {
    if second == 0 && micro == 0 then rest else ":" + (Decimal(second, 2) + Fraction(micro, rest))
  }

  /** Hours and minutes, and what is finer only when it is not zero. */
  function Clock(u: nat, rest: string): string {
    var seconds := u / 1_000_000;
    Decimal(seconds / 3600, 2) + (":" + (Decimal(seconds / 60 % 60, 2) + Tail(seconds % 60, u % 1_000_000, rest)))
  }

  function Offset(offset: Option<int>, rest: string): string {
    if offset.None? then rest else (if offset.value < 0 then "-" else "+") + Clock(Abs(offset.value), rest)
  }

  function Micros(hour: nat, minute: nat, second: nat, micro: nat): nat {
    ((hour * 60 + minute) * 60 + second) * 1_000_000 + micro
  }

  function ReadSeconds(s: string): Option<Read<(nat, nat)>> {
    var colon := ReadMark(s, ":");
    if colon.None? then Some(Read((0, 0), s))
    else
      var second :- ReadNumber(colon.value, 2);
      var micro :- ReadFraction(second.rest);
      Some(Read((second.value, micro.value), micro.rest))
  }

  function ReadClock(s: string): Option<Read<nat>> {
    var hour :- ReadNumber(s, 2);
    var s :- ReadMark(hour.rest, ":");
    var minute :- ReadNumber(s, 2);
    var tail :- ReadSeconds(minute.rest);
    if ValidTime(hour.value, minute.value, tail.value.0, tail.value.1)
    then Some(Read(Micros(hour.value, minute.value, tail.value.0, tail.value.1), tail.rest)) else None
  }

  /** Nothing, which makes the stamp naive; `Z`; or a sign and the distance from UTC. */
  function ReadOffset(s: string): Option<Read<Option<int>>> {
    var zulu, plus, minus := ReadMark(s, "Z"), ReadMark(s, "+"), ReadMark(s, "-");
    if zulu.Some? then Some(Read(Some(0), zulu.value))
    else if plus.Some? then
      var u :- ReadClock(plus.value);
      Some(Read(Some(u.value), u.rest))
    else if minus.Some? then
      var u :- ReadClock(minus.value);
      Some(Read(Some(0 - u.value as int), u.rest))
    else Some(Read(None, s))
  }

  function IsoFormat(t: Stamp, rest: string): string {
    Decimal(t.year, 4) + ("-" + (Decimal(t.month, 2) + ("-" + (Decimal(t.day, 2) + ("T" + IsoTime(t, rest))))))
  }

  function IsoTime(t: Stamp, rest: string): string {
    Decimal(t.hour, 2)
    + (":" + (Decimal(t.minute, 2)
              + (":" + (Decimal(t.second, 2) + Fraction(t.micro, Offset(t.offset, rest))))))
  }

  function ReadDate(s: string): Option<Read<(nat, nat, nat)>> {
    var year :- ReadNumber(s, 4);
    var s :- ReadMark(year.rest, "-");
    var month :- ReadNumber(s, 2);
    var s :- ReadMark(month.rest, "-");
    var day :- ReadNumber(s, 2);
    Some(Read((year.value, month.value, day.value), day.rest))
  }

  function ReadTime(s: string): Option<Read<(nat, nat, nat, nat)>> {
    var hour :- ReadNumber(s, 2);
    var s :- ReadMark(hour.rest, ":");
    var minute :- ReadNumber(s, 2);
    var s :- ReadMark(minute.rest, ":");
    var second :- ReadNumber(s, 2);
    var micro :- ReadFraction(second.rest);
    Some(Read((hour.value, minute.value, second.value, micro.value), micro.rest))
  }

  /** A stamp with all its fields in range. */
  function ReadStamp(s: string): Option<Read<Stamp>> {
    var date :- ReadDate(s);
    var s :- ReadMark(date.rest, "T");
    var time :- ReadTime(s);
    var offset :- ReadOffset(time.rest);
    var t := Stamp(date.value.0, date.value.1, date.value.2, time.value.0, time.value.1, time.value.2, time.value.3,
                   offset.value);
    if ValidStamp(t) then Some(Read(t, offset.rest)) else None
  }

  /** What follows a stamp starts with a character that cannot continue it. */
  predicate Closed(rest: string) {
    rest == "" || rest[0] == '"'
  }

  lemma FractionIsRead(micro: nat, rest: string)
    requires micro < 1_000_000 && (rest == "" || rest[0] != '.')
    ensures ReadFraction(Fraction(micro, rest)) == Some(Read(micro, rest))
  {
    if micro != 0 {
      MarkIsRead(".", Decimal(micro, 6) + rest);
      assert Power(6, false) == 1_000_000;
      DecimalIsRead(micro, 6, rest);
    }
  }

  lemma MicrosSplit(u: nat)
    requires u < DAY
    ensures var seconds := u / 1_000_000;
            var h, m, s, f := seconds / 3600, seconds / 60 % 60, seconds % 60, u % 1_000_000;
            ValidTime(h, m, s, f) && Micros(h, m, s, f) == u
  {
    var seconds := u / 1_000_000;
    assert seconds / 3600 == seconds / 60 / 60;
  }

  lemma SecondsAreRead(second: nat, micro: nat, rest: string)
    requires second < 60 && micro < 1_000_000 && Closed(rest)
    ensures ReadSeconds(Tail(second, micro, rest)) == Some(Read((second, micro), rest))
  {
    if second != 0 || micro != 0 {
      MarkIsRead(":", Decimal(second, 2) + Fraction(micro, rest));
      assert Power(2, false) == 100;
      DecimalIsRead(second, 2, Fraction(micro, rest));
      FractionIsRead(micro, rest);
    }
  }

  lemma ClockIsRead(h: nat, m: nat, s: nat, f: nat, rest: string)
    requires ValidTime(h, m, s, f) && Closed(rest)
    ensures ReadClock(Decimal(h, 2) + (":" + (Decimal(m, 2) + Tail(s, f, rest))))
         == Some(Read(Micros(h, m, s, f), rest))
  {
    var tail := Tail(s, f, rest);
    assert Power(2, false) == 100;
    DecimalIsRead(h, 2, ":" + (Decimal(m, 2) + tail));
    MarkIsRead(":", Decimal(m, 2) + tail);
    DecimalIsRead(m, 2, tail);
    SecondsAreRead(s, f, rest);
  }

  lemma DistanceIsRead(u: nat, rest: string)
    requires u < DAY && Closed(rest)
    ensures ReadClock(Clock(u, rest)) == Some(Read(u, rest))
  {
    MicrosSplit(u);
    var seconds := u / 1_000_000;
    ClockIsRead(seconds / 3600, seconds / 60 % 60, seconds % 60, u % 1_000_000, rest);
  }

  lemma EastIsRead(clock: string, u: nat, rest: string)
    requires ReadClock(clock) == Some(Read(u, rest))
    ensures ReadOffset("+" + clock) == Some(Read(Some(u), rest))
  {
    MarkIsRead("+", clock);
    assert ("+" + clock)[0] == '+';
  }

  lemma WestIsRead(clock: string, u: nat, rest: string)
    requires ReadClock(clock) == Some(Read(u, rest))
    ensures ReadOffset("-" + clock) == Some(Read(Some(0 - u as int), rest))
  {
    MarkIsRead("-", clock);
    assert ("-" + clock)[0] == '-';
  }

  lemma OffsetIsRead(offset: Option<int>, rest: string)
    requires (offset.Some? ==> -DAY < offset.value < DAY) && Closed(rest)
    ensures ReadOffset(Offset(offset, rest)) == Some(Read(offset, rest))
  {
    if offset.Some? {
      var u := Abs(offset.value);
      DistanceIsRead(u, rest);
      if offset.value < 0 {
        WestIsRead(Clock(u, rest), u, rest);
      } else {
        EastIsRead(Clock(u, rest), u, rest);
      }
    }
  }

  lemma OffsetStartsPlainly(offset: Option<int>, rest: string)
    requires Closed(rest)
    ensures Offset(offset, rest) == "" || Offset(offset, rest)[0] != '.'
  {
  }

  lemma TimeIsRead(t: Stamp, rest: string)
    requires ValidTime(t.hour, t.minute, t.second, t.micro) && Closed(rest)
    ensures ReadTime(IsoTime(t, rest)) == Some(Read((t.hour, t.minute, t.second, t.micro), Offset(t.offset, rest)))
  {
    var end := Fraction(t.micro, Offset(t.offset, rest));
    assert Power(2, false) == 100;
    DecimalIsRead(t.hour, 2, ":" + (Decimal(t.minute, 2) + (":" + (Decimal(t.second, 2) + end))));
    MarkIsRead(":", Decimal(t.minute, 2) + (":" + (Decimal(t.second, 2) + end)));
    DecimalIsRead(t.minute, 2, ":" + (Decimal(t.second, 2) + end));
    MarkIsRead(":", Decimal(t.second, 2) + end);
    DecimalIsRead(t.second, 2, end);
    OffsetStartsPlainly(t.offset, rest);
    FractionIsRead(t.micro, Offset(t.offset, rest));
  }

  lemma DateIsRead(year: nat, month: nat, day: nat, rest: string)
    requires year < 10_000 && month < 100 && day < 100
    ensures ReadDate(Decimal(year, 4) + ("-" + (Decimal(month, 2) + ("-" + (Decimal(day, 2) + rest)))))
         == Some(Read((year, month, day), rest))
  {
    assert Power(2, false) == 100 && Power(4, false) == 10_000;
    DecimalIsRead(year, 4, "-" + (Decimal(month, 2) + ("-" + (Decimal(day, 2) + rest))));
    MarkIsRead("-", Decimal(month, 2) + ("-" + (Decimal(day, 2) + rest)));
    DecimalIsRead(month, 2, "-" + (Decimal(day, 2) + rest));
    MarkIsRead("-", Decimal(day, 2) + rest);
    DecimalIsRead(day, 2, rest);
  }

  /** Every valid stamp, aware or naive, is read back exactly. */
  lemma StampIsRead(t: Stamp, rest: string)
    requires ValidStamp(t) && Closed(rest)
    ensures ReadStamp(IsoFormat(t, rest)) == Some(Read(t, rest))
  {
    DateIsRead(t.year, t.month, t.day, "T" + IsoTime(t, rest));
    MarkIsRead("T", IsoTime(t, rest));
    TimeIsRead(t, rest);
    OffsetIsRead(t.offset, rest);
  }
}
