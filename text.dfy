/**
 * The few string operations the pipeline relies on: Python's `str.strip()`,
 * `str.upper()` on ASCII letters, zero-padded decimal rendering, the strict
 * digit read of `strptime`'s numeric fields and Python's `int()` on ASCII text.
 */
module Text {
  import opened Wrappers

  /** Python's `str.isspace()`. */
  predicate IsSpace(c: char) {
    var n := c as int;
    (9 <= n <= 13) || (28 <= n <= 32) || n == 0x85 || n == 0xA0 || n == 0x1680
    || (0x2000 <= n <= 0x200A) || n == 0x2028 || n == 0x2029 || n == 0x202F
    || n == 0x205F || n == 0x3000
  }

  /** `s.lstrip()`: drops the leading whitespace and nothing else. */
  function StripLeft(s: string): (r: string)
    ensures |r| <= |s| && r == s[|s| - |r|..]
    ensures forall k :: 0 <= k < |s| - |r| ==> IsSpace(s[k])
    ensures r != [] ==> !IsSpace(r[0])
  {
    if |s| > 0 && IsSpace(s[0]) then StripLeft(s[1..]) else s
  }

  /** `s.rstrip()`: drops the trailing whitespace and nothing else. */
  function StripRight(s: string): (r: string)
    ensures |r| <= |s| && r == s[..|r|]
    ensures forall k :: |r| <= k < |s| ==> IsSpace(s[k])
    ensures r != [] ==> !IsSpace(r[|r| - 1])
  {
    if |s| > 0 && IsSpace(s[|s| - 1]) then StripRight(s[..|s| - 1]) else s
  }

  /** `s.strip()`. */
  function Strip(s: string): (r: string)
    ensures |r| <= |s|
    ensures r != [] ==> !IsSpace(r[0]) && !IsSpace(r[|r| - 1])
    ensures (forall k :: 0 <= k < |s| ==> IsSpace(s[k])) ==> r == []
  {
    StripRight(StripLeft(s))
  }

  /** Stripping keeps a contiguous middle part and removes only whitespace around it. */
  lemma {:induction false} StripSlice(s: string)
    ensures exists i, j :: (0 <= i <= j <= |s| && Strip(s) == s[i..j]
                             && (forall k :: 0 <= k < i ==> IsSpace(s[k]))
                             && (forall k :: j <= k < |s| ==> IsSpace(s[k])))
  {
    var l := StripLeft(s);
    var i := |s| - |l|;
    var j := i + |StripRight(l)|;
    assert Strip(s) == s[i..j];
  }

  lemma {:induction false} StripIdempotent(s: string)
    ensures Strip(Strip(s)) == Strip(s)
  {
    var t := Strip(s);
    StripSlice(s);
    if t != [] {
      assert StripLeft(t) == t;
    }
  }

  function UpperChar(c: char): char {
    if 'a' <= c <= 'z' then (c as int - 32) as char else c
  }

  /** `s.upper()` on ASCII letters; every other character is kept. */
  function Upper(s: string): (r: string)
    ensures |r| == |s|
    ensures forall k :: 0 <= k < |s| ==> r[k] == UpperChar(s[k])
  {
    seq(|s|, k requires 0 <= k < |s| => UpperChar(s[k]))
  }

  lemma {:induction false} UpperIdempotent(s: string)
    ensures Upper(Upper(s)) == Upper(s)
    ensures forall k :: 0 <= k < |s| ==> !('a' <= Upper(s)[k] <= 'z')
  {
  }

  predicate IsDigit(c: char) {
    '0' <= c <= '9'
  }

  predicate AllDigits(s: string) {
    forall k :: 0 <= k < |s| ==> IsDigit(s[k])
  }

  function DigitChar(n: int): (c: char)
    requires 0 <= n < 10
    ensures IsDigit(c)
  {
    ('0' as int + n) as char
  }

  function DigitValue(c: char): int
    requires IsDigit(c)
  {
    c as int - '0' as int
  }

  /** `'%02d' % (n % 100)`, the rendering of `%d`, `%m` and `%y`. */
  function Pad2(n: int): (r: string)
    ensures |r| == 2 && AllDigits(r)
  {
    var m := n % 100;
    [DigitChar(m / 10), DigitChar(m % 10)]
  }

  /** `'%04d' % (n % 10000)`, the rendering of `%Y`. */
  function Pad4(n: int): (r: string)
    ensures |r| == 4 && AllDigits(r)
  {
    var m := n % 10000;
    Pad2(m / 100) + Pad2(m % 100)
  }

  function Pow10(n: nat): nat {
    if n == 0 then 1 else 10 * Pow10(n - 1)
  }

  /** The value of a string of decimal digits, most significant first; it has at most |s| digits. */
  function DigitsValue(s: string): (v: nat)
    requires AllDigits(s)
    ensures v < Pow10(|s|)
  {
    if |s| == 0 then 0 else 10 * DigitsValue(s[..|s| - 1]) + DigitValue(s[|s| - 1])
  }

  /**
   * The strict digit read of `strptime`'s `%d` and `%Y` fields: a non-empty run
   * of ASCII digits and nothing else; anything else fails, here `None`.
   */
  function ParseNat(s: string): (r: Option<nat>)
    ensures r.Some? <==> |s| > 0 && AllDigits(s)
    ensures r.Some? ==> r.value < Pow10(|s|)
  {
    if |s| > 0 && AllDigits(s) then Some(DigitsValue(s)) else None
  }

  /**
   * What `int()` accepts after the sign: decimal digits, with single
   * underscores allowed between two digits (`digit (["_"] digit)*`).
   */
  predicate DigitGroups(u: string)
    decreases |u|
  {
    if |u| <= 1 then |u| == 1 && IsDigit(u[0])
    else if !IsDigit(u[|u| - 1]) then false
    else if u[|u| - 2] == '_' then |u| >= 3 && DigitGroups(u[..|u| - 2])
    else DigitGroups(u[..|u| - 1])
  }

  /** Grouped digits start and end with a digit. */
  lemma {:induction false} DigitGroupsEnds(u: string)
    requires DigitGroups(u)
    ensures IsDigit(u[0]) && IsDigit(u[|u| - 1])
    decreases |u|
  {
    if |u| > 1 {
      var p := if u[|u| - 2] == '_' then u[..|u| - 2] else u[..|u| - 1];
      DigitGroupsEnds(p);
      assert u[0] == p[0];
    }
  }

  /** The value of grouped digits, the underscores ignored. */
  function GroupedValue(u: string): nat
    requires DigitGroups(u)
    decreases |u|
  {
    if |u| == 1 then DigitValue(u[0])
    else if u[|u| - 2] == '_' then 10 * GroupedValue(u[..|u| - 2]) + DigitValue(u[|u| - 1])
    else 10 * GroupedValue(u[..|u| - 1]) + DigitValue(u[|u| - 1])
  }

  /**
   * Python's `int(s)` in base 10 on ASCII text: whitespace around the number
   * (what `str.strip()` removes), then an optional `+` or `-`, then grouped
   * digits. Anything else raises `ValueError`, here `None`.
   */
  function PyInt(s: string): (r: Option<int>)
  {
    var t := Strip(s);
    if |t| > 0 && (t[0] == '+' || t[0] == '-') then
      var u := t[1..];
      if DigitGroups(u) then
        var v: int := GroupedValue(u);
        Some(if t[0] == '-' then -v else v)
      else None
    else if DigitGroups(t) then Some(GroupedValue(t))
    else None
  }

  /** Without underscores the grouped value is the plain digit value. */
  lemma {:induction false} GroupedValueOfDigits(s: string)
    requires |s| > 0 && AllDigits(s)
    ensures DigitGroups(s) && GroupedValue(s) == DigitsValue(s)
  {
    if |s| == 1 {
      assert s[..0] == [];
    } else {
      assert IsDigit(s[|s| - 2]);
      GroupedValueOfDigits(s[..|s| - 1]);
    }
  }

  /** A string that neither starts nor ends with whitespace is its own strip. */
  lemma {:induction false} StripUnpadded(s: string)
    requires |s| > 0 && !IsSpace(s[0]) && !IsSpace(s[|s| - 1])
    ensures Strip(s) == s
  {
  }

  /** On a plain digit string `int()` reads the digits, as the strict parse does. */
  lemma {:induction false} PyIntOfDigits(s: string)
    requires |s| > 0 && AllDigits(s)
    ensures PyInt(s) == Some(DigitsValue(s)) && ParseNat(s) == Some(DigitsValue(s))
  {
    StripUnpadded(s);
    GroupedValueOfDigits(s);
  }

  /** `int()` ignores the whitespace around the number. */
  lemma {:induction false} PyIntStrip(s: string)
    ensures PyInt(Strip(s)) == PyInt(s)
  {
    StripIdempotent(s);
  }

  /** A sign in front of grouped digits: `-` negates, `+` keeps the value. */
  lemma {:induction false} PyIntSigned(sign: char, u: string)
    requires (sign == '+' || sign == '-') && DigitGroups(u)
    ensures var v: int := GroupedValue(u);
      PyInt([sign] + u) == Some(if sign == '-' then -v else v)
  {
    var t := [sign] + u;
    DigitGroupsEnds(u);
    StripUnpadded(t);
    assert t[1..] == u;
  }

  /** Grouped digits without a sign read as their value. */
  lemma {:induction false} PyIntGrouped(u: string)
    requires DigitGroups(u)
    ensures PyInt(u) == Some(GroupedValue(u))
  {
    DigitGroupsEnds(u);
    StripUnpadded(u);
  }

  /** `strip()` removes a leading blank. */
  lemma {:induction false} StripLeadingSpace(s: string)
    requires |s| > 0 && IsSpace(s[0])
    ensures Strip(s) == Strip(s[1..])
  {
  }

  /** `int()` skips a leading blank. */
  lemma {:induction false} PyIntLeadingSpace(s: string)
    requires |s| > 0 && IsSpace(s[0])
    ensures PyInt(s) == PyInt(s[1..])
  {
    StripLeadingSpace(s);
    PyIntStrip(s);
    PyIntStrip(s[1..]);
  }

  /** One digit is a group of digits worth its value. */
  lemma {:induction false} SingleDigitGroup(c: char)
    requires IsDigit(c)
    ensures DigitGroups([c]) && GroupedValue([c]) == DigitValue(c)
  {
  }

  /** A single digit reads as its value. */
  lemma {:induction false} PyIntDigit(c: char)
    requires IsDigit(c)
    ensures PyInt([c]) == Some(DigitValue(c))
  {
    SingleDigitGroup(c);
    PyIntGrouped([c]);
  }

  /** A minus sign and a single digit read as the digit's negated value. */
  lemma {:induction false} PyIntNegativeDigit(s: string)
    requires |s| == 2 && s[0] == '-' && IsDigit(s[1])
    ensures PyInt(s) == Some(-DigitValue(s[1]))
  {
    SingleDigitGroup(s[1]);
    assert s == [s[0]] + [s[1]];
    PyIntSigned(s[0], [s[1]]);
  }

  /** `int()` of a zero-padded two-digit number is the number. */
  lemma {:induction false} PyIntPad2(n: int)
    requires 0 <= n < 100
    ensures PyInt(Pad2(n)) == Some(n)
  {
    ParsePad2(n);
    PyIntOfDigits(Pad2(n));
  }

  lemma {:induction false} DigitsValueSnoc(s: string, c: char)
    requires AllDigits(s) && IsDigit(c)
    ensures AllDigits(s + [c])
    ensures DigitsValue(s + [c]) == 10 * DigitsValue(s) + DigitValue(c)
  {
    assert (s + [c])[..|s|] == s;
  }

  /** A digit rendered and read back. */
  lemma {:induction false} DigitRoundTrip(n: int)
    requires 0 <= n < 10
    ensures DigitValue(DigitChar(n)) == n
  {
  }

  /** A digit character read and rendered back. */
  lemma {:induction false} CharRoundTrip(c: char)
    requires IsDigit(c)
    ensures DigitChar(DigitValue(c)) == c
  {
  }

  lemma {:induction false} DivMod10(q: int, r: int)
    requires 0 <= q < 10 && 0 <= r < 10
    ensures (10 * q + r) % 100 == 10 * q + r
    ensures (10 * q + r) / 10 == q && (10 * q + r) % 10 == r
  {
  }

  lemma {:induction false} DivMod100(q: int, r: int)
    requires 0 <= q < 100 && 0 <= r < 100
    ensures (100 * q + r) % 10000 == 100 * q + r
    ensures (100 * q + r) / 100 == q && (100 * q + r) % 100 == r
  {
  }

  /** The last two digits of a number are the last two digits of its last four. */
  lemma {:induction false} ModMod100(y: int)
    ensures (y % 10000) % 100 == y % 100
  {
    var m, q := y % 10000, y / 10000;
    assert y == 10000 * q + m;
    assert y == 100 * (100 * q + m / 100) + m % 100;
  }

  /** `Pad2` renders only the last two digits. */
  lemma {:induction false} Pad2Mod(n: int)
    ensures Pad2(n % 100) == Pad2(n)
  {
    assert (n % 100) % 100 == n % 100;
  }

  /** Two digits denote ten times the first plus the second. */
  lemma {:induction false} DigitsValuePair(a: char, b: char)
    requires IsDigit(a) && IsDigit(b)
    ensures AllDigits([a, b]) && DigitsValue([a, b]) == 10 * DigitValue(a) + DigitValue(b)
  {
    assert [a, b][..1] == [a];
    assert [a][..0] == [];
  }

  lemma {:induction false} ParsePad2(n: int)
    requires 0 <= n < 100
    ensures ParseNat(Pad2(n)) == Some(n)
  {
    var q, r := n / 10, n % 10;
    assert n % 100 == n;
    assert Pad2(n) == [DigitChar(q), DigitChar(r)];
    DigitRoundTrip(q);
    DigitRoundTrip(r);
    DigitsValuePair(DigitChar(q), DigitChar(r));
  }

  lemma {:induction false} DigitsValueSplit(a: string, b: string)
    requires AllDigits(a) && |b| == 2 && AllDigits(b)
    ensures AllDigits(a + b)
    ensures DigitsValue(a + b) == 100 * DigitsValue(a) + DigitsValue(b)
  {
    var a1 := a + [b[0]];
    assert a + b == a1 + [b[1]];
    assert b == [b[0], b[1]];
    DigitsValueSnoc(a, b[0]);
    DigitsValueSnoc(a1, b[1]);
    DigitsValuePair(b[0], b[1]);
  }

  /** Below 10000, `Pad4` is the two-digit renderings of the hundreds and of the rest. */
  lemma {:induction false} Pad4Halves(n: int)
    requires 0 <= n < 10000
    ensures Pad4(n) == Pad2(n / 100) + Pad2(n % 100)
    ensures n == 100 * (n / 100) + n % 100 && 0 <= n / 100 < 100 && 0 <= n % 100 < 100
  {
    assert n % 10000 == n;
  }

  lemma {:induction false} ParsePad4(n: int)
    requires 0 <= n < 10000
    ensures ParseNat(Pad4(n)) == Some(n)
  {
    Pad4Halves(n);
    var hi, lo := n / 100, n % 100;
    var p, q := Pad2(hi), Pad2(lo);
    ParsePad2(hi);
    ParsePad2(lo);
    DigitsValueSplit(p, q);
  }
}
