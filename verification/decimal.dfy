/**
 * Text helpers shared by the map and solution parsers: JavaScript and Python whitespace
 * trimming, splitting on a separator, integer ↔ decimal text, and JavaScript's
 * `Number(string)` on integer text.
 */
module Decimal {
  import opened Wrappers

  /** A JavaScript number as the parsers see it: `NaN`, or an integer value. */
  datatype Number = NaN | Num(value: int)

  /** Whose whitespace a parser skips: JavaScript's and Python's differ at both ends of the range. */
  datatype Flavor = JavaScript | Python

  /**
   * ECMAScript's WhiteSpace and LineTerminator code points, which `trim()` and `Number()` skip:
   * tab, line feed, vertical tab, form feed, carriage return, the space separators (space,
   * no-break space, ogham space mark, U+2000 to U+200A, narrow no-break space, medium
   * mathematical space, ideographic space), the line and paragraph separators and the
   * byte-order mark.
   */
  predicate JsSpace(c: char)
  {
    '\t' <= c <= '\r' || c == ' ' || c == '\U{A0}' || c == '\U{1680}' || '\U{2000}' <= c <= '\U{200A}' ||
    c == '\U{2028}' || c == '\U{2029}' || c == '\U{202F}' || c == '\U{205F}' || c == '\U{3000}' ||
    c == '\U{FEFF}'
  }

  /**
   * Python's `str.isspace()`, which `strip()` and the pattern `\s` use: the same as
   * JavaScript's without the byte-order mark, and with the file, group, record and unit
   * separators (U+001C to U+001F) and next line (U+0085) besides.
   */
  predicate PySpace(c: char)
  {
    '\t' <= c <= '\r' || '\U{1C}' <= c <= ' ' || c == '\U{85}' || c == '\U{A0}' || c == '\U{1680}' ||
    '\U{2000}' <= c <= '\U{200A}' || c == '\U{2028}' || c == '\U{2029}' || c == '\U{202F}' ||
    c == '\U{205F}' || c == '\U{3000}'
  }

  predicate IsSpace(f: Flavor, c: char)
  {
    match f
    case JavaScript => JsSpace(c)
    case Python => PySpace(c)
  }

  predicate IsDigit(c: char)
  {
    '0' <= c <= '9'
  }

  predicate AllDigits(s: string)
  {
    forall i :: 0 <= i < |s| ==> IsDigit(s[i])
  }

  /** Leading whitespace of flavour `f` removed. */
  function TrimStart(f: Flavor, s: string): (r: string)
    ensures |r| <= |s| && r == s[|s| - |r|..]
    ensures r == [] || !IsSpace(f, r[0])
    ensures forall i :: 0 <= i < |s| - |r| ==> IsSpace(f, s[i])
  {
    if s != [] && IsSpace(f, s[0]) then TrimStart(f, s[1..]) else s
  }

  /** Trailing whitespace of flavour `f` removed. */
  function TrimEnd(f: Flavor, s: string): (r: string)
    ensures |r| <= |s| && r == s[..|r|]
    ensures r == [] || !IsSpace(f, r[|r| - 1])
    ensures forall i :: |r| <= i < |s| ==> IsSpace(f, s[i])
  {
    if s != [] && IsSpace(f, s[|s| - 1]) then TrimEnd(f, s[..|s| - 1]) else s
  }

  /** `r` is the slice of `s` at `i` with only whitespace of flavour `f` around it. */
  predicate Inside(f: Flavor, s: string, i: nat, r: string)
  {
    i + |r| <= |s| && r == s[i..i + |r|] &&
    (forall k :: 0 <= k < i ==> IsSpace(f, s[k])) &&
    (forall k :: i + |r| <= k < |s| ==> IsSpace(f, s[k]))
  }

  /** JavaScript's `trim()` or Python's `strip()`: whitespace removed at both ends (see `TrimSpec`). */
  function Trim(f: Flavor, s: string): (r: string)
    ensures r == [] || (!IsSpace(f, r[0]) && !IsSpace(f, r[|r| - 1]))
    ensures |r| <= |s|
    ensures s == [] || (!IsSpace(f, s[0]) && !IsSpace(f, s[|s| - 1])) ==> r == s
  {
    TrimEnd(f, TrimStart(f, s))
  }

  /**
   * What `Trim` keeps: the slice of `s` after its leading and before its trailing whitespace,
   * which is empty exactly when `s` is all whitespace.
   */
  lemma TrimSpec(f: Flavor, s: string)
    ensures Inside(f, s, |s| - |TrimStart(f, s)|, Trim(f, s))
    ensures Trim(f, s) == [] <==> forall k :: 0 <= k < |s| ==> IsSpace(f, s[k])
  {
    TrimInside(f, s);
    TrimEmpty(f, s);
  }

  lemma TrimInside(f: Flavor, s: string)
    ensures Inside(f, s, |s| - |TrimStart(f, s)|, TrimEnd(f, TrimStart(f, s)))
  {
    var t := TrimStart(f, s);
    var r := TrimEnd(f, t);
    var i := |s| - |t|;
    assert t == s[i..];
    assert r == t[..|r|];
    assert r == s[i..i + |r|] by { assert s[i..][..|r|] == s[i..i + |r|]; }
    assert forall k :: 0 <= k < i ==> IsSpace(f, s[k]);
    assert forall k :: i + |r| <= k < |s| ==> IsSpace(f, s[k]) by {
      forall k | i + |r| <= k < |s| ensures IsSpace(f, s[k]) {
        assert s[k] == t[k - i];
      }
    }
    assert Inside(f, s, i, r);
  }

  lemma TrimEmpty(f: Flavor, s: string)
    ensures TrimEnd(f, TrimStart(f, s)) == [] <==> forall k :: 0 <= k < |s| ==> IsSpace(f, s[k])
  {
    var t := TrimStart(f, s);
    var i := |s| - |t|;
    TrimInside(f, s);
    if t != [] {
      assert t[0] == s[i] && !IsSpace(f, s[i]);
    }
  }

  /** The first index of `c` in `s`, if any. */
  function IndexOf(s: string, c: char): (r: Option<nat>)
    ensures r.None? <==> c !in s
    ensures r.Some? ==> r.value < |s| && s[r.value] == c && c !in s[..r.value]
  {
    if s == [] then None
    else if s[0] == c then Some(0)
    else
      var r := IndexOf(s[1..], c);
      assert s == [s[0]] + s[1..];
      if r.None? then None
      else
        assert s[..r.value + 1] == [s[0]] + s[1..][..r.value];
        Some(r.value + 1)
  }

  /** `s.split(sep)` with a one-character separator: never empty, no part contains `sep`. */
  function Split(s: string, sep: char): (r: seq<string>)
    ensures |r| >= 1
    ensures forall k :: 0 <= k < |r| ==> sep !in r[k]
    decreases |s|
  {
    match IndexOf(s, sep)
    case None => [s]
    case Some(i) => [s[..i]] + Split(s[i + 1..], sep)
  }

  /** The parts put back together with `sep` between them. */
  function Join(parts: seq<string>, sep: char): string
    requires |parts| >= 1
  {
    if |parts| == 1 then parts[0] else parts[0] + [sep] + Join(parts[1..], sep)
  }

  /** Splitting then joining gives back the text. */
  lemma {:induction false} JoinSplit(s: string, sep: char)
    ensures Join(Split(s, sep), sep) == s
    decreases |s|
  {
    match IndexOf(s, sep)
    case None =>
    case Some(i) =>
      var rest := Split(s[i + 1..], sep);
      assert Split(s, sep) == [s[..i]] + rest;
      assert Split(s, sep)[1..] == rest;
      JoinSplit(s[i + 1..], sep);
      assert Join(Split(s, sep), sep) == s[..i] + [sep] + Join(rest, sep);
      assert s == s[..i] + [sep] + s[i + 1..];
  }

  /** The first separator of `a + [c] + b`, when `a` has none, is the one after `a`. */
  lemma {:induction false} IndexOfAfter(a: string, c: char, b: string)
    requires c !in a
    ensures IndexOf(a + [c] + b, c) == Some(|a|)
  {
    if a != [] {
      IndexOfAfter(a[1..], c, b);
      assert (a + [c] + b)[1..] == a[1..] + [c] + b;
    }
  }

  /** Joining parts free of the separator, then splitting, gives back the parts. */
  lemma {:induction false} SplitJoin(parts: seq<string>, sep: char)
    requires |parts| >= 1 && forall k :: 0 <= k < |parts| ==> sep !in parts[k]
    ensures Split(Join(parts, sep), sep) == parts
  {
    var s := Join(parts, sep);
    if |parts| == 1 {
      assert IndexOf(s, sep).None?;
    } else {
      var tail := Join(parts[1..], sep);
      assert s == parts[0] + [sep] + tail;
      IndexOfAfter(parts[0], sep, tail);
      assert s[..|parts[0]|] == parts[0];
      assert s[|parts[0]| + 1..] == tail;
      SplitJoin(parts[1..], sep);
    }
  }

  function DigitValue(c: char): nat
    requires IsDigit(c)
  {
    c as int - '0' as int
  }

  function DigitChar(d: nat): (c: char)
    requires d < 10
    ensures IsDigit(c) && DigitValue(c) == d
  {
    ('0' as int + d) as char
  }

  /** The value of a string of decimal digits, most significant first. */
  function ValueOf(s: string): nat
    requires AllDigits(s)
  {
    if s == [] then 0 else ValueOf(s[..|s| - 1]) * 10 + DigitValue(s[|s| - 1])
  }

  /** The decimal text of a natural number, without leading zeros. */
  function NatToString(n: nat): (r: string)
    ensures |r| >= 1 && AllDigits(r) && ValueOf(r) == n
    ensures r[0] == '0' ==> n == 0
  {
    if n < 10 then [DigitChar(n)]
    else
      var r := NatToString(n / 10) + [DigitChar(n % 10)];
      assert r[..|r| - 1] == NatToString(n / 10);
      r
  }

  /** JavaScript's number-to-text conversion on integers: a minus sign, then the digits. */
  function IntToString(n: int): (r: string)
    ensures |r| >= 1 && ',' !in r && ')' !in r && ' ' !in r
  {
    if n < 0 then "-" + NatToString(-n) else NatToString(n)
  }

  /** Optional sign, then at least one digit. */
  function ParseInt(s: string): (r: Option<int>)
  {
    if s == [] then None
    else if s[0] == '-' || s[0] == '+' then
      var rest := s[1..];
      if rest != [] && AllDigits(rest) then
        var v: int := ValueOf(rest);
        Some(if s[0] == '-' then -v else v)
      else None
    else if AllDigits(s) then Some(ValueOf(s))
    else None
  }

  /**
   * `Number(s)` on the text forms the parsers meet: surrounding whitespace is ignored, blank
   * text is 0, and an optional sign followed by decimal digits is their value; every other
   * text is NaN here (see the README for the numeric forms this leaves out).
   */
  function JsNumber(s: string): (r: Number)
  {
    var t := Trim(JavaScript, s);
    if t == [] then Num(0)
    else match ParseInt(t)
      case Some(n) => Num(n)
      case None => NaN
  }

  /** `Number(undefined)` is NaN. */
  function JsNumberOf(s: Option<string>): (r: Number)
    ensures s.None? ==> r == NaN
  {
    if s.None? then NaN else JsNumber(s.value)
  }

  /** Reading back the text of an integer gives the integer. */
  lemma IntRoundTrip(n: int)
    ensures JsNumber(IntToString(n)) == Num(n)
  {
    var t := IntToString(n);
    var digits := NatToString(if n < 0 then -n else n);
    assert !IsSpace(JavaScript, digits[|digits| - 1]);
    if n < 0 {
      assert t == "-" + digits && t[1..] == digits;
      assert Trim(JavaScript, t) == t;
      assert ParseInt(t) == Some(n);
    } else {
      assert t == digits && !IsSpace(JavaScript, t[0]);
      assert Trim(JavaScript, t) == t;
      assert ParseInt(t) == Some(n);
    }
  }

  /** Distinct integers have distinct texts. */
  lemma IntToStringInjective(a: int, b: int)
    requires IntToString(a) == IntToString(b)
    ensures a == b
  {
    IntRoundTrip(a);
    IntRoundTrip(b);
  }

  /** ASCII `lower()`. */
  function Lower(s: string): (r: string)
    ensures |r| == |s|
    ensures forall i :: 0 <= i < |s| ==> (if 'A' <= s[i] <= 'Z' then r[i] as int == s[i] as int + 32 else r[i] == s[i])
  {
    seq(|s|, i requires 0 <= i < |s| => if 'A' <= s[i] <= 'Z' then (s[i] as int + 32) as char else s[i])
  }
}
