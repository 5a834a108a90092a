/** The small part of JavaScript's string and number conversions that the
    timetable code relies on: `Number.prototype.toString`, `padStart(2, '0')`,
    `Number(text)` on digit strings, `String.prototype.split` and `trim`. */
module Strings {

  import opened Options

  predicate IsDigit(c: char) {
    '0' <= c <= '9'
  }

  predicate AllDigits(s: string) {
    forall i :: 0 <= i < |s| ==> IsDigit(s[i])
  }

  /** True when the character `c` never occurs in `s`. */
  predicate Avoids(s: string, c: char) {
    forall i :: 0 <= i < |s| ==> s[i] != c
  }

  function DigitChar(d: nat): (c: char)
    requires d < 10
    ensures IsDigit(c) && c as int - '0' as int == d
  {
    ('0' as int + d) as char
  }

  function DigitValue(c: char): (d: nat)
    requires IsDigit(c)
    ensures d < 10
  {
    c as int - '0' as int
  }

  /** Decimal notation of a non-negative number, without leading zeros
      (`NatToStringLeading`): what `n.toString()` gives for a non-negative
      integer. */
  function NatToString(n: nat): (s: string)
    ensures 1 <= |s| && AllDigits(s)
    ensures n < 10 <==> |s| == 1
    decreases n
  {
    if n < 10 then [DigitChar(n)] else NatToString(n / 10) + [DigitChar(n % 10)]
  }

  /** The decimal text of a number of two or more digits does not start
      with `0`. */
  lemma {:induction false} NatToStringLeading(n: nat)
    ensures n >= 10 ==> NatToString(n)[0] != '0'
    decreases n
  {
    if n >= 10 {
      NatToStringLeading(n / 10);
      assert NatToString(n)[0] == NatToString(n / 10)[0];
    }
  }

  /** `n.toString()` for any integer: a non-negative number reads back
      through `Number` as itself; a negative one is a minus sign followed by
      the digits of its magnitude. */
  function IntToString(n: int): (s: string)
    ensures 0 <= n ==> NumberOf(s) == Some(n)
    ensures n < 0 ==> |s| >= 2 && s[0] == '-' && NumberOf(s[1..]) == Some(-n)
  {
    if n < 0 then
      NatToStringValue(-n);
      var s := "-" + NatToString(-n);
      assert s[1..] == NatToString(-n);
      s
    else
      NatToStringValue(n);
      NatToString(n)
  }

  /** The number a string of decimal digits denotes; the empty string denotes 0. */
  function DigitsValue(s: string): nat
    requires AllDigits(s)
  {
    if s == [] then 0 else DigitsValue(s[..|s| - 1]) * 10 + DigitValue(s[|s| - 1])
  }

  /** `Number(text)` for the texts this model distinguishes: a string of decimal
      digits (the empty string included, which JavaScript reads as 0) gives its
      value; every other text gives `NaN`, here `None`. */
  function NumberOf(s: string): (r: Option<nat>)
    ensures r.Some? <==> AllDigits(s)
  {
    if AllDigits(s) then Some(DigitsValue(s)) else None
  }

  /** `s.padStart(2, '0')`. */
  function PadStart2(s: string): string {
    if |s| == 0 then "00" else if |s| == 1 then "0" + s else s
  }

  lemma {:induction false} NatToStringValue(n: nat)
    ensures DigitsValue(NatToString(n)) == n
    decreases n
  {
    var s := NatToString(n);
    if n < 10 {
      assert s[..|s| - 1] == [];
    } else {
      assert s[..|s| - 1] == NatToString(n / 10);
      NatToStringValue(n / 10);
    }
  }

  /** A leading zero does not change the value of a digit string. */
  lemma {:induction false} LeadingZeroValue(s: string)
    requires AllDigits(s)
    ensures AllDigits("0" + s) && DigitsValue("0" + s) == DigitsValue(s)
    decreases |s|
  {
    var t := "0" + s;
    assert AllDigits(t) by {
      forall i | 0 <= i < |t| ensures IsDigit(t[i]) {
        if i > 0 { assert t[i] == s[i - 1]; }
      }
    }
    if s == [] {
      assert t[..|t| - 1] == [];
    } else {
      assert t[..|t| - 1] == "0" + s[..|s| - 1];
      LeadingZeroValue(s[..|s| - 1]);
    }
  }

  /** Padding a number's decimal notation to two places keeps its value. */
  lemma PaddedValue(n: nat)
    ensures AllDigits(PadStart2(NatToString(n)))
    ensures NumberOf(PadStart2(NatToString(n))) == Some(n)
  {
    var s := NatToString(n);
    NatToStringValue(n);
    if |s| == 1 {
      LeadingZeroValue(s);
    }
  }

  // ---------------------------------------------------------------------------
  // split

  /** `s.split(sep)` for a non-empty separator: the pieces between the
      leftmost non-overlapping occurrences of `sep`. */
  function Split(s: string, sep: string): (parts: seq<string>)
    requires |sep| > 0
    ensures |parts| >= 1
    decreases |s|
  {
    if |s| < |sep| then [s]
    else if s[..|sep|] == sep then [""] + Split(s[|sep|..], sep)
    else
      var rest := Split(s[1..], sep);
      [[s[0]] + rest[0]] + rest[1..]
  }

  /** A string in which the separator's first character never occurs is not split. */
  lemma {:induction false} SplitNone(a: string, sep: string)
    requires |sep| > 0 && Avoids(a, sep[0])
    ensures Split(a, sep) == [a]
    decreases |a|
  {
    if |a| >= |sep| {
      assert a[..|sep|][0] != sep[0];
      SplitNone(a[1..], sep);
      assert [a[0]] + a[1..] == a;
    }
  }

  /** Splitting `a + sep + b`, where `a` holds no start of a separator, yields
      `a` followed by the pieces of `b`. */
  lemma {:induction false} SplitAfter(a: string, sep: string, b: string)
    requires |sep| > 0 && Avoids(a, sep[0])
    ensures Split(a + sep + b, sep) == [a] + Split(b, sep)
    decreases |a|
  {
    var s := a + sep + b;
    if a == [] {
      assert s == sep + b;
      assert s[..|sep|] == sep;
      assert s[|sep|..] == b;
    } else {
      assert s[..|sep|][0] == a[0];
      assert s[1..] == a[1..] + sep + b;
      SplitAfter(a[1..], sep, b);
      assert [a[0]] + a[1..] == a;
    }
  }

  // ---------------------------------------------------------------------------
  // trim

  /** The white-space and line-terminator characters `trim` removes: tab,
      vertical tab, form feed, the byte order mark, every space separator of
      Unicode category Zs, and the line terminators LF, CR, U+2028 and
      U+2029. */
  predicate IsSpace(c: char) {
    || c == '\t' || c == '\U{B}' || c == '\U{C}' || c == '\U{FEFF}'
    || c == ' ' || c == '\U{A0}' || c == '\U{1680}' || ('\U{2000}' <= c <= '\U{200A}')
    || c == '\U{202F}' || c == '\U{205F}' || c == '\U{3000}'
    || c == '\n' || c == '\r' || c == '\U{2028}' || c == '\U{2029}'
  }

  function TrimStart(s: string): (r: string)
    ensures |r| <= |s| && r == s[|s| - |r|..]
    ensures forall k :: 0 <= k < |s| - |r| ==> IsSpace(s[k])
    ensures r != [] ==> !IsSpace(r[0])
    decreases |s|
  {
    if s != [] && IsSpace(s[0]) then TrimStart(s[1..]) else s
  }

  function TrimEnd(s: string): (r: string)
    ensures |r| <= |s| && r == s[..|r|]
    ensures forall k :: |r| <= k < |s| ==> IsSpace(s[k])
    ensures r != [] ==> !IsSpace(r[|r| - 1])
    decreases |s|
  {
    if s != [] && IsSpace(s[|s| - 1]) then TrimEnd(s[..|s| - 1]) else s
  }

  /** `r` occurs in `s` at index `i`, and everything of `s` before and after
      that occurrence is white space. */
  predicate SpaceAround(s: string, i: int, r: string) {
    && 0 <= i <= |s| - |r| && s[i..i + |r|] == r
    && (forall k :: 0 <= k < i ==> IsSpace(s[k]))
    && (forall k :: i + |r| <= k < |s| ==> IsSpace(s[k]))
  }

  /** `s.trim()`: `s` without its leading and trailing white space. */
  function Trim(s: string): string {
    TrimEnd(TrimStart(s))
  }

  /** The trimmed string is a slice `s[i..i + |r|]` with only white space
      outside it, and it neither starts nor ends with white space. */
  lemma TrimSlice(s: string)
    ensures var r := Trim(s);
            && |r| <= |s|
            && (exists i :: SpaceAround(s, i, r))
            && (r != [] ==> !IsSpace(r[0]) && !IsSpace(r[|r| - 1]))
  {
    var t := TrimStart(s);
    TrimAround(s);
    if Trim(s) != [] {
      assert Trim(s)[0] == t[0];
    }
  }

  /** What `TrimStart` and then `TrimEnd` cut off is white space. */
  lemma TrimAround(s: string)
    ensures SpaceAround(s, |s| - |TrimStart(s)|, Trim(s))
  {
    CutAround(s, TrimStart(s), Trim(s));
  }

  /** Cutting white space off the front of `s`, giving `t`, and then off the
      back of `t`, giving `r`, leaves `r` inside `s` with white space around. */
  lemma CutAround(s: string, t: string, r: string)
    requires |t| <= |s| && t == s[|s| - |t|..] && forall k :: 0 <= k < |s| - |t| ==> IsSpace(s[k])
    requires |r| <= |t| && r == t[..|r|] && forall k :: |r| <= k < |t| ==> IsSpace(t[k])
    ensures SpaceAround(s, |s| - |t|, r)
  {
    var i := |s| - |t|;
    assert s[i..i + |r|] == r;
    forall k | i + |r| <= k < |s|
      ensures IsSpace(s[k])
    {
      assert s[k] == t[k - i];
    }
  }

}
