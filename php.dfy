/**
 * The few pieces of PHP's value semantics the plugin relies on: the shape of
 * a submitted form field, the values a stored config array holds, `intval`
 * on strings, `empty()`, and the decimal text PHP prints for an integer.
 */
module Php {
  import opened Wrappers

  /** One field of a submitted form: a single value, or the list of a `name[]` field. */
  datatype Field = Text(s: string) | Items(items: seq<string>)

  /** A value held by a stored config array. */
  datatype Value = Str(s: string) | Int(i: int) | IntList(xs: seq<int>)

  /** The bounds of PHP's 64-bit integers. */
  const MaxInt: int := 0x7fff_ffff_ffff_ffff
  const MinInt: int := -0x8000_0000_0000_0000

  /** The characters a numeric string may start with before its digits. */
  predicate IsSpace(c: char) {
    c == ' ' || c == '\t' || c == '\n' || c == '\r' || c as int == 11 || c as int == 12
  }

  predicate IsDigit(c: char) {
    '0' <= c <= '9'
  }

  predicate AllDigits(d: string) {
    forall i :: 0 <= i < |d| ==> IsDigit(d[i])
  }

  function SkipSpace(s: string): (t: string)
    ensures |t| <= |s| && t == s[|s| - |t|..]
    ensures t == [] || !IsSpace(t[0])
    ensures s != [] && !IsSpace(s[0]) ==> t == s
  {
    if |s| > 0 && IsSpace(s[0]) then SkipSpace(s[1..]) else s
  }

  /** The length of the run of decimal digits at the start of `s`. */
  function DigitRun(s: string): (n: nat)
    ensures n <= |s|
    ensures AllDigits(s[..n])
    ensures n < |s| ==> !IsDigit(s[n])
  {
    if |s| > 0 && IsDigit(s[0]) then
      var n := 1 + DigitRun(s[1..]);
      assert s[..n] == [s[0]] + s[1..][..n - 1];
      n
    else
      0
  }

  function DigitValue(c: char): nat
    requires IsDigit(c)
  {
    c as int - '0' as int
  }

  /** The number a run of decimal digits spells, most significant digit first. */
  function DecimalValue(d: string): nat
    requires AllDigits(d)
  {
    if d == [] then 0 else 10 * DecimalValue(d[..|d| - 1]) + DigitValue(d[|d| - 1])
  }

  function Saturate(n: int): (r: int)
    ensures MinInt <= r <= MaxInt
    ensures MinInt <= n <= MaxInt ==> r == n
    ensures n > MaxInt ==> r == MaxInt
    ensures n < MinInt ==> r == MinInt
  {
    if n > MaxInt then MaxInt else if n < MinInt then MinInt else n
  }

  /**
   * `intval($s)` for a string: leading white space is skipped, one sign is
   * read, and then the run of decimal digits; text after the digits is
   * ignored, a string without digits gives 0, and a number beyond the 64-bit
   * range is pinned to the nearest bound.
   */
  function Intval(s: string): (n: int)
    ensures MinInt <= n <= MaxInt
    ensures s == [] ==> n == 0
    ensures |s| > 0 && !IsSpace(s[0]) && !IsDigit(s[0]) && s[0] != '-' && s[0] != '+' ==> n == 0
  {
    var t := SkipSpace(s);
    if |t| > 0 && t[0] == '-' then Saturate(-(Leading(t[1..]) as int))
    else if |t| > 0 && t[0] == '+' then Saturate(Leading(t[1..]))
    else Saturate(Leading(t))
  }

  /** The number spelled by the run of digits `s` starts with, 0 when there is none. */
  function Leading(s: string): nat {
    DecimalValue(s[..DigitRun(s)])
  }

  /**
   * `intval($_POST[key])` for what the form submitted under a key: an absent
   * key reads as null, which gives 0; a list gives 1 when it has an element
   * and 0 when it has none.
   */
  function FieldIntval(f: Option<Field>): (n: int)
    ensures MinInt <= n <= MaxInt
    ensures f.None? ==> n == 0
    ensures f.Some? && f.value.Items? ==> n == (if f.value.items == [] then 0 else 1)
  {
    match f
    case None => 0
    case Some(Text(s)) => Intval(s)
    case Some(Items(xs)) => if xs == [] then 0 else 1
  }

  /**
   * PHP's `empty()` on a config entry: an absent entry (null), an empty
   * list, and a scalar that prints as "" or "0".
   */
  function Empty(v: Option<Value>): (e: bool)
    ensures v.None? ==> e
    ensures v.Some? && v.value.IntList? ==> (e <==> v.value.xs == [])
    ensures v.Some? && !v.value.IntList? ==> (e <==> PhpString(v.value) == "" || PhpString(v.value) == "0")
  {
    match v
    case None => true
    case Some(Int(i)) => i == 0
    case Some(Str(s)) => s == "" || s == "0"
    case Some(IntList(xs)) => xs == []
  }

  /**
   * PHP's truthiness of a config entry, as used by `$x ? 'true' : 'false'`
   * and by `if ($x)`: an integer is true when it is not 0, a list when it
   * has an element, and null never.
   */
  function Truthy(v: Option<Value>): (t: bool)
    ensures v.None? ==> !t
    ensures v.Some? && v.value.Int? ==> (t <==> v.value.i != 0)
    ensures v.Some? && v.value.IntList? ==> (t <==> |v.value.xs| > 0)
  {
    !Empty(v)
  }

  function DigitChar(d: nat): (c: char)
    requires d < 10
    ensures IsDigit(c) && DigitValue(c) == d
  {
    ('0' as int + d) as char
  }

  function NatToDecimal(n: nat): (s: string)
    decreases n
  {
    if n < 10 then [DigitChar(n)] else NatToDecimal(n / 10) + [DigitChar(n % 10)]
  }

  /** The text PHP prints for an integer, as `echo` and `(string)` do. */
  function IntToDecimal(n: int): string {
    if n < 0 then "-" + NatToDecimal(-n) else NatToDecimal(n)
  }

  /**
   * The text `(string)` gives for a config entry (a list reads as "Array").
   * An integer never prints as "", and prints as a single digit exactly
   * when it is that digit's value.
   */
  function PhpString(v: Value): (text: string)
    ensures v.Str? ==> text == v.s
    ensures v.Int? ==> text != "" && (text == "0" <==> v.i == 0) && (text == "1" <==> v.i == 1)
    ensures v.IntList? ==> text == "Array"
  {
    match v
    case Str(s) => s
    case Int(i) =>
      IntPrintsDigit(i, '0');
      IntPrintsDigit(i, '1');
      NatToDecimalDigits(if i < 0 then -i else i);
      IntToDecimal(i)
    case IntList(_) => "Array"
  }

  lemma {:induction false} NatToDecimalDigits(n: nat)
    ensures |NatToDecimal(n)| > 0 && AllDigits(NatToDecimal(n))
    ensures DecimalValue(NatToDecimal(n)) == n
    ensures n < 10 <==> |NatToDecimal(n)| == 1
    decreases n
  {
    var s := NatToDecimal(n);
    if n >= 10 {
      NatToDecimalDigits(n / 10);
      var p := NatToDecimal(n / 10);
      assert s == p + [DigitChar(n % 10)];
      assert s[..|s| - 1] == p;
      assert AllDigits(s) by {
        forall i | 0 <= i < |s| ensures IsDigit(s[i]) {
          if i < |p| { assert s[i] == p[i]; }
        }
      }
    }
  }

  lemma {:induction false} DigitRunOfDigits(d: string, rest: string)
    requires AllDigits(d)
    requires rest == [] || !IsDigit(rest[0])
    ensures DigitRun(d + rest) == |d|
    decreases |d|
  {
    if d != [] {
      assert (d + rest)[1..] == d[1..] + rest;
      DigitRunOfDigits(d[1..], rest);
    } else {
      assert d + rest == rest;
    }
  }

  /** A run of digits followed by text that does not go on with a digit spells its own value. */
  lemma LeadingOfDigits(d: string, rest: string)
    requires AllDigits(d)
    requires rest == [] || !IsDigit(rest[0])
    ensures Leading(d + rest) == DecimalValue(d)
  {
    DigitRunOfDigits(d, rest);
    assert (d + rest)[..|d|] == d;
  }

  lemma IntvalOfDigits(d: string, rest: string, v: nat)
    requires |d| > 0 && AllDigits(d) && DecimalValue(d) == v && v <= MaxInt
    requires rest == [] || !IsDigit(rest[0])
    ensures Intval(d + rest) == v
  {
    assert (d + rest)[0] == d[0];
    IntvalOfUnsigned(d + rest);
    LeadingOfDigits(d, rest);
  }

  /** A string that starts with a digit reads as the number its leading digits spell. */
  lemma IntvalOfUnsigned(s: string)
    requires |s| > 0 && IsDigit(s[0])
    ensures Intval(s) == Saturate(Leading(s))
  {
  }

  lemma IntvalOfSignedDigits(d: string, rest: string, v: nat)
    requires AllDigits(d) && DecimalValue(d) == v && v <= -MinInt
    requires rest == [] || !IsDigit(rest[0])
    ensures Intval(("-" + d) + rest) == -(v as int)
  {
    var s := ("-" + d) + rest;
    assert s[0] == '-';
    assert s[1..] == d + rest;
    IntvalOfMinus(s);
    LeadingOfDigits(d, rest);
  }

  /** A string that starts with a minus sign reads as the negated number its digits after the sign spell. */
  lemma IntvalOfMinus(s: string)
    requires |s| > 0 && s[0] == '-'
    ensures Intval(s) == Saturate(-(Leading(s[1..]) as int))
  {
  }

  /**
   * What PHP prints for a 64-bit integer reads back through `intval` as that
   * integer, whatever non-digit text follows it ("12" and "12abc" both give 12).
   */
  lemma IntvalOfDecimal(n: int, rest: string)
    requires MinInt <= n <= MaxInt
    requires rest == [] || !IsDigit(rest[0])
    ensures Intval(IntToDecimal(n) + rest) == n
  {
    if n < 0 {
      IntvalOfNegativeDecimal(n, rest);
    } else {
      IntvalOfNonNegativeDecimal(n, rest);
    }
  }

  lemma IntvalOfNonNegativeDecimal(n: nat, rest: string)
    requires n <= MaxInt
    requires rest == [] || !IsDigit(rest[0])
    ensures Intval(IntToDecimal(n) + rest) == n
  {
    NatToDecimalDigits(n);
    IntvalOfDigits(NatToDecimal(n), rest, n);
  }

  lemma IntvalOfNegativeDecimal(n: int, rest: string)
    requires MinInt <= n < 0
    requires rest == [] || !IsDigit(rest[0])
    ensures Intval(IntToDecimal(n) + rest) == n
  {
    NatToDecimalDigits(-n);
    IntvalOfSignedDigits(NatToDecimal(-n), rest, -n);
  }

  /** `intval` reads what PHP prints for a 64-bit integer back as that integer. */
  lemma IntvalInverts(n: int)
    requires MinInt <= n <= MaxInt
    ensures Intval(IntToDecimal(n)) == n
  {
    IntvalOfDecimal(n, []);
    assert IntToDecimal(n) + [] == IntToDecimal(n);
  }

  /** The only integer that prints as a single digit is that digit's value. */
  lemma IntPrintsDigit(i: int, c: char)
    requires IsDigit(c)
    ensures IntToDecimal(i) == [c] <==> i == DigitValue(c)
  {
    if i < 0 {
      assert IntToDecimal(i)[0] == '-';
    } else if i >= 10 {
      NatToDecimalDigits(i);
    }
  }
}
