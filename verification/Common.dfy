/** Small vocabulary shared by every component of the model. */
module Common {

  datatype Option<+T> = None | Some(value: T) {
    predicate IsFailure() {
      None?
    }

    function PropagateFailure<U>(): Option<U>
      requires None?
    {
      None
    }

    function Extract(): T
      requires Some?
    {
      value
    }
  }

  /** Instants and durations are whole microseconds, the resolution of the program's clock. */
  const SECOND: int := 1_000_000

  function Min(a: int, b: int): int { if a <= b then a else b }

  function Max(a: int, b: int): int { if a >= b then a else b }

  /** ASCII whitespace. */
  predicate Blank(c: char) {
    c == ' ' || '\t' <= c <= '\r' || '\U{1C}' <= c <= '\U{1F}'
  }

  /** Text without the blanks at either end. */
  function Strip(s: string): string {
    if s == "" then s
    else if Blank(s[0]) then Strip(s[1..])
    else if Blank(s[|s| - 1]) then Strip(s[..|s| - 1])
    else s
  }

  function Lower(c: char): char {
    if 'A' <= c <= 'Z' then c - 'A' + 'a' else c
  }

  function Lowered(s: string): string {
    seq(|s|, i requires 0 <= i < |s| => Lower(s[i]))
  }

  predicate AllBlank(s: string) {
    forall i :: 0 <= i < |s| ==> Blank(s[i])
  }

  lemma NothingIsBlank()
    ensures AllBlank("")
  {
  }

  lemma OneMoreBefore(c: char, before: string, core: string, after: string)
    ensures [c] + (before + core + after) == ([c] + before) + core + after
    ensures Blank(c) && AllBlank(before) ==> AllBlank([c] + before)
  {
  }

  lemma OneMoreAfter(before: string, core: string, after: string, c: char)
    ensures (before + core + after) + [c] == before + core + (after + [c])
    ensures Blank(c) && AllBlank(after) ==> AllBlank(after + [c])
  {
  }

  /** Stripping takes blanks from both ends and nothing else. */
  lemma {:induction false} StrippedIs(s: string) returns (before: string, after: string)
    ensures s == before + Strip(s) + after && AllBlank(before) && AllBlank(after)
    decreases |s|
  {
    hide AllBlank;
    before, after := "", "";
    NothingIsBlank();
    if s != "" && Blank(s[0]) {
      before, after := StrippedIs(s[1..]);
      OneMoreBefore(s[0], before, Strip(s[1..]), after);
      before := [s[0]] + before;
    } else if s != "" && Blank(s[|s| - 1]) {
      before, after := StrippedIs(s[..|s| - 1]);
      OneMoreAfter(before, Strip(s[..|s| - 1]), after, s[|s| - 1]);
      after := after + [s[|s| - 1]];
    }
  }

  /** It stops at the first and the last character that is no blank. */
  lemma {:induction false} StrippedEnds(s: string)
    ensures Strip(s) != "" ==> !Blank(Strip(s)[0]) && !Blank(Strip(s)[|Strip(s)| - 1])
    decreases |s|
  {
    if s != "" && Blank(s[0]) {
      StrippedEnds(s[1..]);
    } else if s != "" && Blank(s[|s| - 1]) {
      StrippedEnds(s[..|s| - 1]);
    }
  }

  /** Nothing is left to strip, so stripping twice is stripping once. */
  lemma StrippedStays(s: string)
    ensures Strip(Strip(s)) == Strip(s)
  {
    StrippedEnds(s);
  }

  /** The blanks: tab to carriage return, the four information separators, and the space. */
  lemma BlankByCode(c: char)
    ensures Blank(c) <==> c as int in {9, 10, 11, 12, 13, 28, 29, 30, 31, 32}
  {
  }

  /** Folding moves the capital letters to their small ones and nothing else, so folding twice is folding
      once. */
  lemma LoweredIs(s: string)
    ensures |Lowered(s)| == |s|
    ensures forall i :: 0 <= i < |s| ==>
                          Lowered(s)[i] as int == (if 65 <= s[i] as int <= 90 then s[i] as int + 32 else s[i] as int)
    ensures Lowered(Lowered(s)) == Lowered(s)
  {
  }
}
