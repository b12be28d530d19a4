/** Numbers and lines in a text file, as the stream operators write and read them. */
module Text {

  const UINT64_MAX: nat := 0xFFFF_FFFF_FFFF_FFFF

  predicate IsDigit(c: char) { '0' <= c <= '9' }

  predicate IsSpace(c: char) { c == ' ' || c == '\n' || c == '\t' || c == '\r' }

  function Digit(d: nat): (c: char)
    requires d < 10
    ensures IsDigit(c) && DigitValue(c) == d
  {
    ('0' as int + d) as char
  }

  /** For example. */
  lemma Digits()
    ensures Decimal(0) == "0" && Decimal(7) == "7" && Decimal(1205) == "1205"
  {
    assert Decimal(1205) == Decimal(120) + "5" && Decimal(120) == Decimal(12) + "0" && Decimal(12) == "12";
  }

  function DigitValue(c: char): nat
    requires IsDigit(c)
  {
    c as int - '0' as int
  }

  predicate AllDigits(s: string) { forall i :: 0 <= i < |s| ==> IsDigit(s[i]) }

  /** `<<` of an unsigned number. */
  function Decimal(n: nat): (s: string)
    ensures |s| >= 1 && AllDigits(s)
  {
    if n < 10 then [Digit(n)] else Decimal(n / 10) + [Digit(n % 10)]
  }

  function Value(s: string): nat
    requires AllDigits(s)
  {
    if s == "" then 0 else Value(s[..|s| - 1]) * 10 + DigitValue(s[|s| - 1])
  }

  lemma {:induction false} ValueOfDecimal(n: nat)
    ensures Value(Decimal(n)) == n
  {
    if n >= 10 {
      ValueOfDecimal(n / 10);
      var s := Decimal(n);
      assert s[..|s| - 1] == Decimal(n / 10);
    } else {
      assert Decimal(n)[..0] == "";
    }
  }

  function SkipSpaces(s: string): (t: string)
    ensures |t| <= |s| && (t == "" || !IsSpace(t[0]))
  {
    if s != "" && IsSpace(s[0]) then SkipSpaces(s[1..]) else s
  }

  /** How many digits the text starts with. */
  function DigitCount(s: string): (k: nat)
    ensures k <= |s| && AllDigits(s[..k]) && (k < |s| ==> !IsDigit(s[k]))
  {
    if s != "" && IsDigit(s[0]) then
      assert s[..1 + DigitCount(s[1..])] == [s[0]] + s[1..][..DigitCount(s[1..])];
      1 + DigitCount(s[1..])
    else 0
  }

  datatype Read = Failed | Got(n: nat, rest: string)

  /** `>>` into an unsigned 64-bit number: spaces are skipped, then digits are read as far as they go. */
  function ReadNumber(s: string): (r: Read)
    ensures r.Got? ==> |r.rest| < |s| && r.n <= UINT64_MAX
  {
    var t := SkipSpaces(s);
    var k := DigitCount(t);
    if k == 0 || Value(t[..k]) > UINT64_MAX then Failed else Got(Value(t[..k]), t[k..])
  }

  predicate Blank(s: string) { SkipSpaces(s) == "" }

  /** A read that fails reaches the end of the text: nothing is left to read, or the last number is too large. */
  predicate AtEnd(s: string) {
    var t := SkipSpaces(s);
    t[DigitCount(t)..] == ""
  }

  lemma {:induction false} DigitCountOf(s: string, rest: string)
    requires AllDigits(s) && (rest == "" || !IsDigit(rest[0]))
    ensures DigitCount(s + rest) == |s|
  {
    if s == "" {
      assert s + rest == rest;
    } else {
      assert (s + rest)[1..] == s[1..] + rest;
      DigitCountOf(s[1..], rest);
    }
  }

  /** What is written can be read back, up to what follows it. */
  lemma ReadDecimal(n: nat, rest: string)
    requires n <= UINT64_MAX && (rest == "" || !IsDigit(rest[0]))
    ensures ReadNumber(Decimal(n) + rest) == Got(n, rest)
  {
    hide Decimal, Value, DigitCount;
    var s := Decimal(n) + rest;
    assert IsDigit(s[0]);
    assert SkipSpaces(s) == s;
    DigitCountOf(Decimal(n), rest);
    assert s[..|Decimal(n)|] == Decimal(n) && s[|Decimal(n)|..] == rest;
    ValueOfDecimal(n);
  }

  lemma ReadAfterSpace(c: char, s: string)
    requires IsSpace(c)
    ensures ReadNumber([c] + s) == ReadNumber(s) && AtEnd([c] + s) == AtEnd(s) && Blank([c] + s) == Blank(s)
  {
    assert ([c] + s)[1..] == s;
  }

  /** `getline`: the rest of the line, and what comes after it. */
  function GetLine(s: string): (r: (string, string))
    ensures |r.0| + |r.1| <= |s|
  {
    if s == "" then ("", "")
    else if s[0] == '\n' then ("", s[1..])
    else var (line, rest) := GetLine(s[1..]); ([s[0]] + line, rest)
  }

  predicate OneLine(s: string) { forall i :: 0 <= i < |s| ==> s[i] != '\n' }

  lemma {:induction false} GetLineOf(s: string, rest: string)
    requires OneLine(s)
    ensures GetLine(s + "\n" + rest) == (s, rest)
  {
    if s == "" {
      assert s + "\n" + rest == "\n" + rest;
      assert ("\n" + rest)[1..] == rest;
    } else {
      GetLineOf(s[1..], rest);
      assert (s + "\n" + rest)[1..] == s[1..] + "\n" + rest;
      assert s == [s[0]] + s[1..];
    }
  }

  // ---------- Words on one line ---------- //

  /** Numbers separated by single spaces. */
  function Numbers(ns: seq<nat>): (s: string)
    ensures OneLine(s)
  {
    if |ns| == 0 then ""
    else if |ns| == 1 then Decimal(ns[0])
    else Numbers(ns[..|ns| - 1]) + " " + Decimal(ns[|ns| - 1])
  }

  /** Reads numbers until a read fails. */
  function ReadNumbers(s: string): (ns: seq<nat>)
    ensures forall i :: 0 <= i < |ns| ==> ns[i] <= UINT64_MAX
    decreases |s|
  {
    var r := ReadNumber(s);
    if r.Failed? then [] else [r.n] + ReadNumbers(r.rest)
  }

  lemma ReadNumbersStep(s: string)
    ensures var r := ReadNumber(s); ReadNumbers(s) == if r.Failed? then [] else [r.n] + ReadNumbers(r.rest)
  {}

  lemma Associates(a: string, b: string, c: string)
    ensures (a + " " + b) + " " + c == a + " " + (b + " " + c)
  {}

  lemma {:induction false} NumbersSplit(ns: seq<nat>)
    requires |ns| >= 2
    ensures Numbers(ns) == Decimal(ns[0]) + " " + Numbers(ns[1..])
    decreases |ns|
  {
    hide Decimal;
    var n := |ns| - 1;
    if n == 1 {
      assert ns[..1] == [ns[0]] && ns[1..] == [ns[1]];
    } else {
      NumbersSplit(ns[..n]);
      var mid := Numbers(ns[1..n]);
      assert ns[..n][1..] == ns[1..n] && ns[1..][..n - 1] == ns[1..n];
      assert Numbers(ns[1..]) == mid + " " + Decimal(ns[n]);
      Associates(Decimal(ns[0]), mid, Decimal(ns[n]));
    }
  }

  lemma {:induction false} ReadNumbersOf(ns: seq<nat>)
    requires forall i :: 0 <= i < |ns| ==> ns[i] <= UINT64_MAX
    ensures ReadNumbers(Numbers(ns)) == ns
    decreases |ns|
  {
    hide Decimal, ReadNumber;
    if |ns| == 0 {
      ReadNothing("");
    } else if |ns| == 1 {
      ReadDecimal(ns[0], "");
      assert Decimal(ns[0]) + "" == Decimal(ns[0]);
      ReadNothing("");
    } else {
      var tail := Numbers(ns[1..]);
      NumbersSplit(ns);
      assert Decimal(ns[0]) + " " + tail == Decimal(ns[0]) + (" " + tail);
      ReadDecimal(ns[0], " " + tail);
      ReadNumbersOf(ns[1..]);
      ReadAfterSpace(' ', tail);
    }
  }

  lemma ReadNothing(s: string)
    requires Blank(s)
    ensures ReadNumber(s) == Failed && AtEnd(s)
  {}

  // ---------- Reading by lines ---------- //

  /** The lines of a text in which every line is ended. */
  function Lines(s: string): (ls: seq<string>)
    decreases |s|
  {
    if s == "" then [] else
    LineIsShorter(s);
    var (line, rest) := GetLine(s);
    [line] + Lines(rest)
  }

  /** The lines of these numbers. */
  function RowLines(rows: seq<seq<nat>>): (ls: seq<string>)
    ensures |ls| == |rows| && forall i :: 0 <= i < |rows| ==> ls[i] == Numbers(rows[i])
  {
    seq(|rows|, i requires 0 <= i < |rows| => Numbers(rows[i]))
  }

  lemma OneMoreRow(rows: seq<seq<nat>>, row: seq<nat>, rest: seq<string>)
    ensures RowLines(rows) + ([Numbers(row)] + rest) == RowLines(rows + [row]) + rest
  {
    hide Numbers;
    assert RowLines(rows + [row]) == RowLines(rows) + [Numbers(row)];
  }

  lemma LineIsShorter(s: string)
    requires s != ""
    ensures |GetLine(s).1| < |s|
  {}

  lemma FirstLine(l: string, rest: string)
    requires OneLine(l)
    ensures Lines(l + "\n" + rest) == [l] + Lines(rest)
  {
    hide GetLine;
    GetLineOf(l, rest);
  }

  lemma {:induction false} SkipInLine(l: string, rest: string)
    requires OneLine(l)
    ensures !Blank(l) ==> SkipSpaces(l + "\n" + rest) == SkipSpaces(l) + "\n" + rest && OneLine(SkipSpaces(l))
    ensures Blank(l) ==> SkipSpaces(l + "\n" + rest) == SkipSpaces(rest)
  {
    var s := l + "\n" + rest;
    if l == "" {
      assert s[1..] == rest;
    } else if IsSpace(l[0]) {
      assert s[1..] == l[1..] + "\n" + rest;
      SkipInLine(l[1..], rest);
    }
  }

  lemma {:induction false} CountInLine(l: string, rest: string)
    ensures DigitCount(l + "\n" + rest) == DigitCount(l)
  {
    var s := l + "\n" + rest;
    if l != "" && IsDigit(l[0]) {
      assert s[1..] == l[1..] + "\n" + rest;
      CountInLine(l[1..], rest);
    } else if l == "" {
      assert s == "\n" + rest;
    }
  }

  /** A number on a line is read from a text that starts with the line, and a blank line is skipped. */
  lemma ReadInLine(l: string, rest: string)
    requires OneLine(l)
    ensures var r := ReadNumber(l);
            r.Got? ==> ReadNumber(l + "\n" + rest) == Got(r.n, r.rest + "\n" + rest) && OneLine(r.rest)
    ensures Blank(l) ==> ReadNumber(l + "\n" + rest) == ReadNumber(rest) && AtEnd(l + "\n" + rest) == AtEnd(rest)
  {
    hide SkipSpaces, DigitCount, Value;
    SkipInLine(l, rest);
    var t := SkipSpaces(l);
    CountInLine(t, rest);
    var k := DigitCount(t);
    if !Blank(l) {
      var u := t + "\n" + rest;
      assert u[..k] == t[..k] && u[k..] == t[k..] + "\n" + rest;
    }
  }

  /** The text holds exactly these numbers. */
  predicate HoldsNumbers(s: string, ns: seq<nat>)
    decreases |ns|
  {
    if ns == [] then Blank(s)
    else var r := ReadNumber(s); r.Got? && r.n == ns[0] && HoldsNumbers(r.rest, ns[1..])
  }

  lemma FirstNumber(s: string, ns: seq<nat>)
    requires HoldsNumbers(s, ns) && ns != []
    ensures var r := ReadNumber(s); r.Got? && r.n == ns[0] && HoldsNumbers(r.rest, ns[1..])
  {}

  lemma NoNumber(s: string)
    requires HoldsNumbers(s, [])
    ensures Blank(s)
  {}

  lemma HoldsCons(s: string, n: nat, rest: string, ns: seq<nat>)
    requires ReadNumber(s) == Got(n, rest) && HoldsNumbers(rest, ns)
    ensures HoldsNumbers(s, [n] + ns)
  {
    hide ReadNumber;
    assert ([n] + ns)[1..] == ns;
  }

  lemma {:induction false} NumbersHold(ns: seq<nat>)
    requires forall i :: 0 <= i < |ns| ==> ns[i] <= UINT64_MAX
    ensures HoldsNumbers(Numbers(ns), ns)
    decreases |ns|
  {
    if |ns| >= 1 {
      var tail := Numbers(ns[1..]);
      if |ns| >= 2 { NumbersSplit(ns); }
      NumbersHold(ns[1..]);
      hide Decimal, ReadNumber, HoldsNumbers, Numbers, OneLine;
      assert ns == [ns[0]] + ns[1..];
      if |ns| == 1 {
        ReadDecimal(ns[0], "");
        assert Decimal(ns[0]) + "" == Decimal(ns[0]) == Numbers(ns);
        HoldsCons(Numbers(ns), ns[0], "", ns[1..]);
      } else {
        assert Decimal(ns[0]) + " " + tail == Decimal(ns[0]) + (" " + tail);
        ReadDecimal(ns[0], " " + tail);
        HoldsAfterSpace(tail, ns[1..]);
        HoldsCons(Numbers(ns), ns[0], " " + tail, ns[1..]);
      }
    }
  }

  lemma HoldsAfterSpace(s: string, ns: seq<nat>)
    requires HoldsNumbers(s, ns)
    ensures HoldsNumbers(" " + s, ns)
  {
    ReadAfterSpace(' ', s);
  }

  lemma {:induction false} NumbersConcat(a: seq<nat>, b: seq<nat>)
    requires a != [] && b != []
    ensures Numbers(a + b) == Numbers(a) + " " + Numbers(b)
    decreases |a|
  {
    hide Decimal;
    NumbersSplit(a + b);
    assert (a + b)[1..] == a[1..] + b && (a + b)[0] == a[0];
    if |a| == 1 {
      assert a[1..] + b == b;
    } else {
      NumbersConcat(a[1..], b);
      NumbersSplit(a);
      Associates(Decimal(a[0]), Numbers(a[1..]), Numbers(b));
    }
  }
}
