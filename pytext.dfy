/**
 * The handful of Python string and integer built-ins the plugin relies on:
 * `str(int)`, `int(str)`, `f"{n:02d}"`, `str.split`, `str.startswith`,
 * `str.lower`/`upper`/`capitalize` and prefix slicing `s[:k]`.
 * Case mapping is ASCII-only (see README, "Left out").
 */
module PyText {
  import opened Wrappers

  predicate IsDigit(c: char) { '0' <= c <= '9' }

  function DigitChar(d: nat): (c: char)
    requires d < 10
    ensures IsDigit(c)
  {
    (('0' as int) + d) as char
  }

  function DigitValue(c: char): (d: nat)
    requires IsDigit(c)
    ensures d < 10
  {
    c as int - '0' as int
  }

  predicate AllDigits(s: string) { forall i :: 0 <= i < |s| ==> IsDigit(s[i]) }

  /** `str(n)` for a natural number: its decimal digits, no leading zero. */
  function NatToStr(n: nat): (s: string)
    ensures 1 <= |s| && AllDigits(s)
    ensures |s| > 1 ==> s[0] != '0'
    decreases n
  {
    if n < 10 then [DigitChar(n)] else NatToStr(n / 10) + [DigitChar(n % 10)]
  }

  /** `str(i)` for any integer. */
  function IntToStr(i: int): (s: string)
    ensures 1 <= |s|
    ensures (s[0] == '-') == (i < 0)
  {
    if i < 0 then "-" + NatToStr(-i) else NatToStr(i)
  }

  /** `f"{n:02d}"`: at least two characters, zero-padded after any sign. */
  function Pad2(n: int): (s: string)
    ensures 2 <= |s|
  {
    if n < 0 then IntToStr(n)
    else if n < 10 then "0" + NatToStr(n)
    else NatToStr(n)
  }

  // ----- int(str) -----

  /**
   * Python's whitespace (`str.isspace`), which `str.strip()` and `int()`
   * drop from both ends: the ASCII controls tab to carriage return, the
   * separators U+001C to U+001F, space, U+0085, no-break space, U+1680,
   * U+2000 to U+200A, the line and paragraph separators, U+202F, U+205F
   * and the ideographic space U+3000.
   */
  predicate IsSpace(c: char) {
    || ('\t' <= c <= '\r')
    || ('\U{001C}' <= c <= '\U{001F}')
    || c == ' ' || c == '\U{0085}' || c == '\U{00A0}' || c == '\U{1680}'
    || ('\U{2000}' <= c <= '\U{200A}')
    || c == '\U{2028}' || c == '\U{2029}' || c == '\U{202F}' || c == '\U{205F}' || c == '\U{3000}'
  }

  function StripLeft(s: string): (r: string)
    ensures |r| <= |s|
    ensures |r| > 0 ==> !IsSpace(r[0])
  {
    if |s| > 0 && IsSpace(s[0]) then StripLeft(s[1..]) else s
  }

  function StripRight(s: string): (r: string)
    ensures |r| <= |s| && r == s[..|r|]
    ensures |r| > 0 ==> !IsSpace(r[|r| - 1])
  {
    if |s| > 0 && IsSpace(s[|s| - 1]) then StripRight(s[..|s| - 1]) else s
  }

  function Strip(s: string): string { StripRight(StripLeft(s)) }

  /** Digits with single underscores between digits, as `int()` accepts them. */
  predicate WellFormedRun(s: string) {
    && 0 < |s|
    && IsDigit(s[0]) && IsDigit(s[|s| - 1])
    && (forall i :: 0 <= i < |s| ==> IsDigit(s[i]) || s[i] == '_')
    && (forall i :: 0 <= i < |s| - 1 ==> !(s[i] == '_' && s[i + 1] == '_'))
  }

  /** The value of a run of digits, skipping underscores. */
  function RunValue(s: string): nat
    requires forall i :: 0 <= i < |s| ==> IsDigit(s[i]) || s[i] == '_'
  {
    if |s| == 0 then 0
    else if s[|s| - 1] == '_' then RunValue(s[..|s| - 1])
    else 10 * RunValue(s[..|s| - 1]) + DigitValue(s[|s| - 1])
  }

  function Unsigned(s: string): Option<nat> {
    if WellFormedRun(s) then Some(RunValue(s)) else None
  }

  /** `int(s)` for a string in base 10; `None` where Python raises `ValueError`. */
  function PyInt(s: string): Option<int> {
    var t := Strip(s);
    if |t| > 0 && (t[0] == '+' || t[0] == '-') then
      match Unsigned(t[1..])
      case Some(v) => var w: int := v; Some(if t[0] == '-' then -w else w)
      case None => None
    else
      match Unsigned(t)
      case Some(v) => Some(v)
      case None => None
  }

  lemma {:induction false} RunValueOfDigits(n: nat)
    ensures WellFormedRun(NatToStr(n)) && RunValue(NatToStr(n)) == n
    decreases n
  {
    var s := NatToStr(n);
    if n >= 10 {
      RunValueOfDigits(n / 10);
      var p := NatToStr(n / 10);
      assert s[..|s| - 1] == p;
    }
  }

  lemma {:induction false} RunValueLeadingZero(s: string)
    requires AllDigits(s)
    ensures RunValue("0" + s) == RunValue(s)
    decreases |s|
  {
    if |s| > 0 {
      var z := "0" + s;
      assert z[..|z| - 1] == "0" + s[..|s| - 1];
      RunValueLeadingZero(s[..|s| - 1]);
    }
  }

  lemma StripOfDigits(s: string)
    requires 0 < |s| && !IsSpace(s[0]) && !IsSpace(s[|s| - 1])
    ensures Strip(s) == s
  {
  }

  /** Leading whitespace, non-ASCII included, changes nothing `int()` reads. */
  lemma {:induction false} LeadingSpaceIgnored(ws: string, s: string)
    requires forall i :: 0 <= i < |ws| ==> IsSpace(ws[i])
    ensures StripLeft(ws + s) == StripLeft(s)
    ensures PyInt(ws + s) == PyInt(s)
    decreases |ws|
  {
    if |ws| > 0 {
      assert (ws + s)[0] == ws[0] && IsSpace(ws[0]);
      assert (ws + s)[1..] == ws[1..] + s;
      LeadingSpaceIgnored(ws[1..], s);
    } else {
      assert ws + s == s;
    }
  }

  /** `int("\u300008") == 8`: an ideographic space before the digits is stripped. */
  lemma IdeographicSpaceStripped()
    ensures PyInt("\U{3000}08") == Some(8)
  {
    assert "\U{3000}08" == "\U{3000}" + "08";
    LeadingSpaceIgnored("\U{3000}", "08");
    PyIntOfDigits("08");
    assert RunValue("08") == 10 * RunValue("0") + DigitValue('8');
  }

  /** `int(str(i)) == i`. */
  lemma IntRoundTrip(i: int)
    ensures PyInt(IntToStr(i)) == Some(i)
  {
    var n: nat := if i < 0 then -i else i;
    RunValueOfDigits(n);
    SignedRun(NatToStr(n), n);
  }

  /** A well-formed run, bare or after a minus sign, is read as its value or its negation. */
  lemma SignedRun(d: string, v: nat)
    requires WellFormedRun(d) && RunValue(d) == v
    ensures PyInt(d) == Some(v)
    ensures PyInt("-" + d) == Some(-(v as int))
  {
    StripOfDigits(d);
    var m := "-" + d;
    assert m[|m| - 1] == d[|d| - 1];
    StripOfDigits(m);
    assert m[1..] == d;
  }

  /** A non-empty string of plain digits is read as its run value. */
  lemma PyIntOfDigits(s: string)
    requires 0 < |s| && AllDigits(s)
    ensures WellFormedRun(s) && PyInt(s) == Some(RunValue(s))
  {
    StripOfDigits(s);
  }

  /** `int(f"{n:02d}") == n` for a non-negative n. */
  lemma Pad2RoundTrip(n: nat)
    ensures PyInt(Pad2(n)) == Some(n)
  {
    RunValueOfDigits(n);
    var d := NatToStr(n);
    if n < 10 {
      RunValueLeadingZero(d);
      PyIntOfDigits("0" + d);
    } else {
      PyIntOfDigits(d);
    }
  }

  lemma Pad2OfSmall(n: nat)
    requires n < 100
    ensures |Pad2(n)| == 2 && AllDigits(Pad2(n))
  {
    if n >= 10 {
      var q := n / 10;
      assert NatToStr(q) == [DigitChar(q)];
    }
  }

  // ----- str.split, startswith, join -----

  /** `s.split(c)` for a one-character separator. */
  function Split(s: string, c: char): (parts: seq<string>)
    ensures 1 <= |parts|
    decreases |s|
  {
    if |s| == 0 then [""]
    else
      var rest := Split(s[1..], c);
      if s[0] == c then [""] + rest else [[s[0]] + rest[0]] + rest[1..]
  }

  /** Splitting a separator-free head, a separator and a tail. */
  lemma {:induction false} SplitAt(a: string, c: char, b: string)
    requires c !in a
    ensures Split(a + [c] + b, c) == [a] + Split(b, c)
    decreases |a|
  {
    if |a| == 0 {
      assert a + [c] + b == [c] + b;
      assert ([c] + b)[1..] == b;
    } else {
      SplitAt(a[1..], c, b);
      assert (a + [c] + b)[1..] == a[1..] + [c] + b;
      assert [a[0]] + a[1..] == a;
    }
  }

  /** A separator-free string splits into itself alone. */
  lemma {:induction false} SplitNone(a: string, c: char)
    requires c !in a
    ensures Split(a, c) == [a]
    decreases |a|
  {
    if |a| > 0 {
      SplitNone(a[1..], c);
      assert [a[0]] + a[1..] == a;
    }
  }

  predicate StartsWith(s: string, p: string) { |p| <= |s| && s[..|p|] == p }

  function Join(parts: seq<string>, sep: string): string {
    if |parts| == 0 then ""
    else if |parts| == 1 then parts[0]
    else parts[0] + sep + Join(parts[1..], sep)
  }

  // ----- case mapping (ASCII) -----

  function LowerChar(c: char): char {
    if 'A' <= c <= 'Z' then (c as int + 32) as char else c
  }

  function UpperChar(c: char): char {
    if 'a' <= c <= 'z' then (c as int - 32) as char else c
  }

  function Lower(s: string): (r: string)
    ensures |r| == |s|
  {
    seq(|s|, i requires 0 <= i < |s| => LowerChar(s[i]))
  }

  function Upper(s: string): (r: string)
    ensures |r| == |s|
  {
    seq(|s|, i requires 0 <= i < |s| => UpperChar(s[i]))
  }

  /** `s.capitalize()`: first character upper case, the rest lower case. */
  function Capitalize(s: string): (r: string)
    ensures |r| == |s|
  {
    if |s| == 0 then "" else [UpperChar(s[0])] + Lower(s[1..])
  }

  // ----- slicing -----

  /** `s[:k]`, where a negative k counts from the end. */
  function Prefix<T>(s: seq<T>, k: int): (r: seq<T>)
    ensures |r| <= |s|
    ensures 0 <= k ==> |r| == if k < |s| then k else |s|
    ensures k < 0 ==> |r| == if |s| + k < 0 then 0 else |s| + k
    ensures r == s[..|r|]
  {
    if 0 <= k then (if k < |s| then s[..k] else s)
    else (if |s| + k < 0 then [] else s[..|s| + k])
  }
}
