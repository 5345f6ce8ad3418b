/**
 The pieces of the C++ standard library that the codecs rely on: printing an int, std::stoi
 and std::stoull, and an input string stream with getline, read and get.  The state of a
 stream is the text not yet extracted.  A char stands for a byte.
 */
module Streams {

  datatype Option<T> = None | Some(value: T)

  // --- Numbers ---

  predicate IsDigit(c: char) {
    '0' <= c <= '9'
  }

  predicate IsSpace(c: char) {
    c == ' ' || '\t' <= c <= '\r'
  }

  function Digit(d: nat): (c: char)
    requires d < 10
    ensures IsDigit(c)
  {
    '0' + d as char
  }

  function DigitValue(c: char): (d: nat)
    ensures d < 10 && (IsDigit(c) ==> Digit(d) == c)
  {
    if IsDigit(c) then c as int - '0' as int else 0
  }

  function PrintNat(n: nat): (s: string)
    ensures |s| >= 1
  {
    if n < 10 then [Digit(n)] else PrintNat(n / 10) + [Digit(n % 10)]
  }

  /** operator<< for an int. */
  function Print(n: int): string {
    if n < 0 then "-" + PrintNat(-n) else PrintNat(n)
  }

  /** How many digits s starts with. */
  function DigitRun(s: string): (n: nat)
    ensures n <= |s|
  {
    if s == "" || !IsDigit(s[0]) then 0 else 1 + DigitRun(s[1..])
  }

  function Value(s: string): nat {
    if s == "" then 0 else 10 * Value(s[..|s| - 1]) + DigitValue(s[|s| - 1])
  }

  function SkipSpaces(s: string): string {
    if s != "" && IsSpace(s[0]) then SkipSpaces(s[1..]) else s
  }

  function ParseDigits(s: string): Option<nat> {
    var n := DigitRun(s);
    if n == 0 then None else Some(Value(s[..n]))
  }

  /** std::stoi: leading white space, an optional sign, then at least one digit; anything
      after the digits is ignored. */
  function Stoi(s: string): Option<int> {
    var t := SkipSpaces(s);
    var negative := t != "" && t[0] == '-';
    match ParseDigits(if negative || (t != "" && t[0] == '+') then t[1..] else t)
    case None => None
    case Some(v) => Some(if negative then 0 - v else v)
  }

  /** std::stoull takes a minus sign too, and wraps the value around 2^64. */
  function Stoull(s: string): Option<nat> {
    match Stoi(s)
    case None => None
    case Some(v) =>
      if v >= 0 then Some(v)
      else if v + 0x1_0000_0000_0000_0000 >= 0 then Some(v + 0x1_0000_0000_0000_0000)
      else None
  }

  lemma {:induction false} ValueOfPrint(n: nat)
    ensures Value(PrintNat(n)) == n
  {
    if n >= 10 {
      ValueOfPrint(n / 10);
      assert PrintNat(n)[..|PrintNat(n)| - 1] == PrintNat(n / 10);
    }
  }

  lemma {:induction false} PrintsDigits(n: nat)
    ensures forall k :: 0 <= k < |PrintNat(n)| ==> IsDigit(PrintNat(n)[k])
  {
    if n >= 10 { PrintsDigits(n / 10); }
  }

  lemma {:induction false} AllDigits(s: string)
    requires forall k :: 0 <= k < |s| ==> IsDigit(s[k])
    ensures DigitRun(s) == |s|
  {
    if s != "" { AllDigits(s[1..]); }
  }

  lemma ParsePrinted(n: nat)
    ensures ParseDigits(PrintNat(n)) == Some(n)
  {
    var s := PrintNat(n);
    PrintsDigits(n);
    AllDigits(s);
    ValueOfPrint(n);
    assert s[..|s|] == s;
  }

  /** Every int survives printing and std::stoi. */
  lemma PrintThenParse(n: int)
    ensures Stoi(Print(n)) == Some(n)
    ensures n >= 0 ==> Stoull(Print(n)) == Some(n)
    ensures Print(n) != ""
    ensures forall k :: 0 <= k < |Print(n)| ==> IsDigit(Print(n)[k]) || Print(n)[k] == '-'
  {
    var s := Print(n);
    if n < 0 {
      PrintsDigits(-n);
      ParsePrinted(-n);
      assert s[1..] == PrintNat(-n);
    } else {
      PrintsDigits(n);
      ParsePrinted(n);
    }
  }

  // --- Streams ---

  datatype Line = NoLine | Line(text: string, rest: string)

  /** The first place from i on that holds the delimiter, or the end. */
  function Find(s: string, i: nat, delimiter: char): (n: nat)
    requires i <= |s|
    ensures i <= n <= |s|
    decreases |s| - i
  {
    if i == |s| || s[i] == delimiter then i else Find(s, i + 1, delimiter)
  }

  /** NextLine is std::getline, which fails only at the end of the text; the delimiter is extracted and dropped. */
  function NextLine(s: string, delimiter: char): Line {
    if s == "" then NoLine
    else
      var n := Find(s, 0, delimiter);
      Line(s[..n], if n < |s| then s[n + 1..] else "")
  }

  lemma {:induction false} FindIs(s: string, i: nat, n: nat, delimiter: char)
    requires i <= n <= |s| && (n == |s| || s[n] == delimiter)
    requires forall k :: i <= k < n ==> s[k] != delimiter
    ensures Find(s, i, delimiter) == n
    decreases n - i
  {
    if i < n { FindIs(s, i + 1, n, delimiter); }
  }

  lemma LineThenRest(text: string, delimiter: char, rest: string)
    requires delimiter !in text
    ensures NextLine(text + [delimiter] + rest, delimiter) == Line(text, rest)
  {
    FindIs(text + [delimiter] + rest, 0, |text|, delimiter);
  }

  lemma LastLine(text: string, delimiter: char)
    requires delimiter !in text && text != ""
    ensures NextLine(text, delimiter) == Line(text, "")
  {
    FindIs(text, 0, |text|, delimiter);
  }

  /** A number on a line of its own. */
  datatype Field = NoField | Field(value: int, rest: string)

  function NextField(s: string, delimiter: char): Field {
    match NextLine(s, delimiter)
    case NoLine => NoField
    case Line(text, rest) =>
      match Stoi(text)
      case None => NoField
      case Some(n) => Field(n, rest)
  }

  /** Reading back a printed number that is followed by its delimiter. */
  lemma NumberThenRest(n: int, delimiter: char, rest: string)
    requires !IsDigit(delimiter) && delimiter != '-'
    ensures NextLine(Print(n) + [delimiter] + rest, delimiter) == Line(Print(n), rest)
    ensures NextField(Print(n) + [delimiter] + rest, delimiter) == Field(n, rest)
    ensures Stoi(Print(n)) == Some(n) && (n >= 0 ==> Stoull(Print(n)) == Some(n))
  {
    PrintThenParse(n);
    LineThenRest(Print(n), delimiter, rest);
  }

  class InputStream {
    var rest: string

    constructor (text: string)
      ensures rest == text
    {
      rest := text;
    }

    method GetLine(delimiter: char) returns (ok: bool, text: string)
      modifies this
      ensures ok == NextLine(old(rest), delimiter).Line?
      ensures ok ==> NextLine(old(rest), delimiter) == Line(text, rest)
      ensures !ok ==> rest == old(rest) == ""
    {
      if rest == "" { return false, ""; }
      text := "";
      while rest != "" && rest[0] != delimiter
        invariant text + rest == old(rest)
        invariant delimiter !in text
        decreases |rest|
      {
        text, rest := text + [rest[0]], rest[1..];
      }
      if rest != "" {
        LineThenRest(text, delimiter, rest[1..]);
        assert rest == [delimiter] + rest[1..];
        assert old(rest) == text + [delimiter] + rest[1..];
        rest := rest[1..];
      } else {
        LastLine(text, delimiter);
        assert text == old(rest);
      }
      ok := true;
    }

    /** Extracts exactly n characters, or fails.  (On failure the program reads no further.) */
    method Read(n: nat) returns (ok: bool, text: string)
      modifies this
      ensures ok == (n <= |old(rest)|)
      ensures ok ==> text == old(rest)[..n] && rest == old(rest)[n..]
    {
      if n > |rest| { return false, ""; }
      ok, text, rest := true, rest[..n], rest[n..];
    }

    /** Skips one character if there is one. */
    method Get()
      modifies this
      ensures rest == Skip(old(rest))
    {
      if rest != "" { rest := rest[1..]; }
    }
  }

  function Skip(s: string): string {
    if s == "" then "" else s[1..]
  }
}
