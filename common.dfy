/**
 * Shared vocabulary: an Option type, decimal strings as produced and parsed by
 * Java (String.valueOf, Integer.parseInt) and PHP (sprintf("%d"), intval), and
 * the two ways the code splits a string (PHP explode, Java String.split).
 */
module Common {

  datatype Option<T> = None | Some(value: T)

  /** Range of a Java `int`. */
  const INT_MIN: int := -0x8000_0000
  const INT_MAX: int := 0x7fff_ffff

  predicate IsDigit(c: char) { '0' <= c <= '9' }

  predicate AllDigits(s: string) { forall i :: 0 <= i < |s| ==> IsDigit(s[i]) }

  function DigitValue(c: char): (d: nat)
    requires IsDigit(c)
    ensures d <= 9
  {
    c as int - '0' as int
  }

  function DigitChar(d: nat): (c: char)
    requires d <= 9
    ensures IsDigit(c) && DigitValue(c) == d
  {
    ('0' as int + d) as char
  }

  /** The value of a string of decimal digits, most significant digit first. */
  function DigitsValue(s: string): nat
    requires AllDigits(s)
  {
    if s == [] then 0 else DigitsValue(s[..|s| - 1]) * 10 + DigitValue(s[|s| - 1])
  }

  function Pow10(k: nat): (p: nat)
    ensures p >= 1
  {
    if k == 0 then 1 else 10 * Pow10(k - 1)
  }

  /** A string of k digits denotes a number below 10^k. */
  lemma {:induction false} DigitsValueBound(s: string)
    requires AllDigits(s)
    ensures DigitsValue(s) < Pow10(|s|)
  {
    if s != [] {
      DigitsValueBound(s[..|s| - 1]);
    }
  }

  /** Decimal rendering of a natural number, without leading zeros. */
  function NatToString(n: nat): (s: string)
    ensures |s| >= 1 && AllDigits(s)
    ensures n > 0 ==> s[0] != '0'
  {
    if n < 10 then [DigitChar(n)] else NatToString(n / 10) + [DigitChar(n % 10)]
  }

  /** Rendering a number and reading it back gives the number. */
  lemma {:induction false} NatToStringValue(n: nat)
    ensures DigitsValue(NatToString(n)) == n
  {
    if n >= 10 {
      NatToStringValue(n / 10);
      var s := NatToString(n);
      assert s[..|s| - 1] == NatToString(n / 10);
    }
  }

  /** Rendering of a possibly negative number, as Java's and PHP's "%d". */
  function IntToString(n: int): (s: string)
    ensures |s| >= 1
  {
    if n < 0 then "-" + NatToString(-n) else NatToString(n)
  }

  /** Zero-padded two- and four-digit renderings (SimpleDateFormat "MM", "yyyy"). */
  function Pad2(n: nat): (s: string)
    requires n < 100
    ensures |s| == 2 && AllDigits(s)
  {
    [DigitChar(n / 10), DigitChar(n % 10)]
  }

  function Pad4(n: nat): (s: string)
    requires n < 10000
    ensures |s| == 4 && AllDigits(s)
  {
    Pad2(n / 100) + Pad2(n % 100)
  }

  /** The longest prefix of `s` made of digits. */
  function LeadingDigits(s: string): (d: string)
    ensures AllDigits(d) && d <= s
    ensures |d| < |s| ==> !IsDigit(s[|d|])
  {
    if s == [] || !IsDigit(s[0]) then [] else [s[0]] + LeadingDigits(s[1..])
  }

  /** Digits followed by a non-digit: the leading digit run is exactly those digits. */
  lemma {:induction false} LeadingDigitsOfDigits(d: string, rest: string)
    requires AllDigits(d)
    requires rest == [] || !IsDigit(rest[0])
    ensures LeadingDigits(d + rest) == d
  {
    if d != [] {
      assert (d + rest)[1..] == d[1..] + rest;
      LeadingDigitsOfDigits(d[1..], rest);
    }
  }

  function InIntRange(v: int): (r: Option<int>)
    ensures r.Some? <==> INT_MIN <= v <= INT_MAX
    ensures r.Some? ==> r.value == v
  {
    if INT_MIN <= v <= INT_MAX then Some(v) else None
  }

  /**
   * Java's Integer.parseInt: an optional sign, at least one digit and nothing
   * else, within the range of an `int`; None stands for NumberFormatException.
   */
  function JavaParseInt(s: string): (r: Option<int>)
    ensures r.Some? ==> INT_MIN <= r.value <= INT_MAX
    ensures r.Some? ==> s != [] && IsDigit(s[|s| - 1]) && (r.value < 0 ==> s[0] == '-')
  {
    if |s| >= 2 && s[0] == '-' && AllDigits(s[1..]) then InIntRange(0 - DigitsValue(s[1..]))
    else if |s| >= 2 && s[0] == '+' && AllDigits(s[1..]) then InIntRange(DigitsValue(s[1..]))
    else if |s| >= 1 && AllDigits(s) then InIntRange(DigitsValue(s))
    else None
  }

  lemma JavaParseIntOfDigits(s: string)
    requires |s| >= 1 && AllDigits(s)
    ensures JavaParseInt(s) == InIntRange(DigitsValue(s))
  {
    assert IsDigit(s[0]);
  }

  /** Integer.parseInt(String.valueOf(n)) == n for every non-negative int. */
  lemma JavaParseIntRoundTrip(n: nat)
    requires n <= INT_MAX
    ensures JavaParseInt(NatToString(n)) == Some(n)
  {
    JavaParseIntOfDigits(NatToString(n));
    NatToStringValue(n);
  }

  predicate IsPhpSpace(c: char) { c == ' ' || c == '\t' || c == '\n' || c == '\r' || c == '\U{B}' || c == '\U{C}' }

  function SkipSpaces(s: string): (r: string)
    ensures |r| <= |s|
  {
    if s != [] && IsPhpSpace(s[0]) then SkipSpaces(s[1..]) else s
  }

  /**
   * PHP's intval on a string: leading white space, an optional sign, then the
   * longest run of digits; 0 when there is none.
   */
  function PhpIntval(s: string): (v: int)
    ensures v < 0 ==> SkipSpaces(s) != [] && SkipSpaces(s)[0] == '-'
    ensures var t := SkipSpaces(s);
            t == [] || !(IsDigit(t[0]) || t[0] == '-' || t[0] == '+') ==> v == 0
  {
    var t := SkipSpaces(s);
    if t != [] && t[0] == '-' then 0 - DigitsValue(LeadingDigits(t[1..]))
    else if t != [] && t[0] == '+' then DigitsValue(LeadingDigits(t[1..]))
    else DigitsValue(LeadingDigits(t))
  }

  /** intval reads back the number that "%d" printed in front of a separator. */
  lemma PhpIntvalOfPrefix(n: nat, rest: string)
    requires rest == [] || !IsDigit(rest[0])
    ensures PhpIntval(NatToString(n) + rest) == n
  {
    var s := NatToString(n) + rest;
    assert s[0] == NatToString(n)[0];
    assert IsDigit(s[0]);
    assert SkipSpaces(s) == s;
    LeadingDigitsOfDigits(NatToString(n), rest);
    NatToStringValue(n);
  }

  /** PHP explode(d, s): all fields between separators, empty ones included. */
  function Explode(s: string, d: char): (r: seq<string>)
    ensures |r| >= 1
    ensures forall i :: 0 <= i < |r| ==> d !in r[i]
  {
    if s == [] then [""]
    else
      var rest := Explode(s[1..], d);
      if s[0] == d then [""] + rest else [[s[0]] + rest[0]] + rest[1..]
  }

  /** explode(d, s)[k], where a missing field reads as PHP's null, whose intval is 0 like "". */
  function Field(s: string, d: char, k: nat): string
  {
    var parts := Explode(s, d);
    if k < |parts| then parts[k] else ""
  }

  /** The first field is everything before the first separator. */
  lemma {:induction false} ExplodeFirst(a: string, d: char, b: string)
    requires d !in a
    ensures Explode(a + [d] + b, d)[0] == a
    ensures Explode(a + [d] + b, d)[1..] == Explode(b, d)
  {
    if a == [] {
      assert a + [d] + b == [d] + b;
      assert ([d] + b)[1..] == b;
    } else {
      assert (a + [d] + b)[1..] == a[1..] + [d] + b;
      ExplodeFirst(a[1..], d, b);
      assert [a[0]] + a[1..] == a;
    }
  }

  lemma {:induction false} ExplodeNoSeparator(a: string, d: char)
    requires d !in a
    ensures Explode(a, d) == [a]
  {
    if a != [] {
      ExplodeNoSeparator(a[1..], d);
      assert [a[0]] + a[1..] == a;
    }
  }

  function DropTrailingEmpty(parts: seq<string>): (r: seq<string>)
    ensures r <= parts
    ensures r != [] ==> r[|r| - 1] != ""
  {
    if parts == [] then []
    else if parts[|parts| - 1] == "" then DropTrailingEmpty(parts[..|parts| - 1])
    else parts
  }

  /**
   * Java's s.split(","): without a separator the whole string; otherwise the
   * fields with trailing empty ones removed (so ",".split(",") is empty).
   */
  function JavaSplit(s: string, d: char): (r: seq<string>)
    ensures forall i :: 0 <= i < |r| ==> d !in r[i]
    ensures |r| >= 2 ==> r[|r| - 1] != ""
  {
    if d !in s then [s] else DropTrailingEmpty(Explode(s, d))
  }

  /** "<a>,<b>" with a non-empty b splits into a and the fields of b. */
  lemma JavaSplitPair(a: string, d: char, b: string)
    requires d !in a && d !in b && b != []
    ensures JavaSplit(a + [d] + b, d) == [a, b]
  {
    var s := a + [d] + b;
    assert s[|a|] == d;
    ExplodeFirst(a, d, b);
    ExplodeNoSeparator(b, d);
    var e := Explode(s, d);
    assert e == [e[0]] + e[1..];
    assert e == [a, b];
  }

  /** Java's String.replace(target, replacement): every non-overlapping occurrence, left to right. */
  function ReplaceAll(s: string, target: string, replacement: string): string
    requires |target| > 0
    decreases |s|
  {
    if |s| < |target| then s
    else if s[..|target|] == target then replacement + ReplaceAll(s[|target|..], target, replacement)
    else [s[0]] + ReplaceAll(s[1..], target, replacement)
  }

  /** Replacing in a string whose only occurrence is a final suffix swaps that suffix. */
  lemma {:induction false} ReplaceSuffix(p: string, target: string, replacement: string)
    requires |target| > 0 && target[0] !in p
    ensures ReplaceAll(p + target, target, replacement) == p + replacement
  {
    var s := p + target;
    if p == [] {
      assert s == target;
      assert s[|target|..] == [];
    } else {
      assert s[..|target|][0] == p[0] != target[0];
      assert ReplaceAll(s, target, replacement) == [p[0]] + ReplaceAll(s[1..], target, replacement);
      assert s[1..] == p[1..] + target;
      ReplaceSuffix(p[1..], target, replacement);
      assert [p[0]] + (p[1..] + replacement) == p + replacement;
    }
  }

  /** ASCII lower-casing, as used by PHP's strcasecmp. */
  function LowerChar(c: char): char
  {
    if 'A' <= c <= 'Z' then (c as int + 32) as char else c
  }

  function Lower(s: string): (r: string)
    ensures |r| == |s|
  {
    if s == [] then [] else [LowerChar(s[0])] + Lower(s[1..])
  }

  /** strcasecmp(a, b) === 0 */
  predicate EqualsIgnoreCase(a: string, b: string) { Lower(a) == Lower(b) }

  /** Java's long/int division truncates toward zero; Dafny's rounds toward minus infinity. */
  function JavaDiv(a: int, b: int): (q: int)
    requires b != 0
    ensures a >= 0 && b > 0 ==> q == a / b
    ensures a < 0 && b > 0 ==> q == -((-a) / b)
  {
    var m := (if a >= 0 then a else -a) / (if b > 0 then b else -b);
    if (a >= 0) == (b > 0) then m else -m
  }

  /** Java's and Kotlin's `%`: the remainder of the truncating division, with the sign of the dividend. */
  function JavaRem(a: int, b: int): (r: int)
    requires b != 0
    ensures a == JavaDiv(a, b) * b + r
    ensures a >= 0 && b > 0 ==> r == a % b
    ensures a < 0 && b > 0 ==> -b < r <= 0
  {
    a - JavaDiv(a, b) * b
  }

  /** Java `int` arithmetic: the low 32 bits, read as a signed value. */
  function WrapInt(v: int): (r: int)
    ensures INT_MIN <= r <= INT_MAX
    ensures INT_MIN <= v <= INT_MAX ==> r == v
  {
    var m := (v - INT_MIN) % 0x1_0000_0000;
    m + INT_MIN
  }

  /** The fields of a java.util.Date in local time; a real date has them in range. */
  datatype DateTime = DateTime(year: nat, month: nat, day: nat, hour: nat, minute: nat, second: nat)

  predicate ValidDateTime(d: DateTime)
  {
    1 <= d.month <= 12 && 1 <= d.day <= 31 && d.hour < 24 && d.minute < 60 && d.second < 60
  }

  /** A reading of the clock: Date.getTime() and the same instant in local time. */
  datatype Clock = Clock(millis: nat, date: DateTime)

  /** SimpleDateFormat "yyyy-MM-dd_HH-mm-ss"; "yyyy" pads to four digits and prints longer years in full. */
  function FormatDate(d: DateTime): (s: string)
    requires ValidDateTime(d)
  {
    (if d.year < 10000 then Pad4(d.year) else NatToString(d.year))
    + "-" + Pad2(d.month) + "-" + Pad2(d.day) + "_" + Pad2(d.hour) + "-" + Pad2(d.minute) + "-" + Pad2(d.second)
  }

  /** The shape \d{4}-\d{2}-\d{2}_\d{2}-\d{2}-\d{2}. */
  predicate DateShape(s: string)
  {
    && |s| == 19
    && AllDigits(s[0..4]) && s[4] == '-' && AllDigits(s[5..7]) && s[7] == '-' && AllDigits(s[8..10])
    && s[10] == '_' && AllDigits(s[11..13]) && s[13] == '-' && AllDigits(s[14..16]) && s[16] == '-' && AllDigits(s[17..19])
  }

  lemma FormatDateShape(d: DateTime)
    requires ValidDateTime(d) && d.year < 10000
    ensures DateShape(FormatDate(d)) && '.' !in FormatDate(d)
  {
    var s := FormatDate(d);
    assert s[0..4] == Pad4(d.year);
    assert s[5..7] == Pad2(d.month);
    assert s[8..10] == Pad2(d.day);
    assert s[11..13] == Pad2(d.hour);
    assert s[14..16] == Pad2(d.minute);
    assert s[17..19] == Pad2(d.second);
  }

  /**
   * The names the appliance gives its recordings and downloads:
   * SimpleDateFormat("'<millis>'_yyyy-MM-dd_HH-mm-ss'<ext>'").
   */
  function TimestampName(c: Clock, ext: string): string
    requires ValidDateTime(c.date)
  {
    NatToString(c.millis) + "_" + FormatDate(c.date) + ext
  }
}
