/** `Integer.parseInt` and `Integer.toString` (`String.valueOf(int)`) for
    32-bit Java ints, restricted to ASCII digits. */
module Integers {
  import opened Results

  const MinInt: int := -0x8000_0000
  const MaxInt: int := 0x7fff_ffff

  /** The values of a Java `int`. */
  type Int32 = x: int | MinInt <= x <= MaxInt

  predicate IsDigit(c: char) {
    '0' <= c <= '9'
  }

  predicate AllDigits(s: string) {
    forall k :: 0 <= k < |s| ==> IsDigit(s[k])
  }

  function DigitValue(c: char): (d: nat)
    requires IsDigit(c)
    ensures d < 10
  {
    c as int - '0' as int
  }

  function DigitChar(d: nat): (c: char)
    requires d < 10
    ensures IsDigit(c) && DigitValue(c) == d
  {
    ('0' as int + d) as char
  }

  /** The number a string of decimal digits denotes, most significant first. */
  function DigitsValue(ds: string): nat
    requires AllDigits(ds)
    decreases |ds|
  {
    if ds == [] then 0 else DigitsValue(ds[..|ds| - 1]) * 10 + DigitValue(ds[|ds| - 1])
  }

  /** The shortest decimal digit string of `n`. */
  function NatDigits(n: nat): (r: string)
    ensures r != [] && AllDigits(r)
    ensures |r| > 1 ==> r[0] != '0'
    decreases n
  {
    if n < 10 then [DigitChar(n)] else NatDigits(n / 10) + [DigitChar(n % 10)]
  }

  /** `Integer.toString(n)`: a minus sign for negative values, then the
      shortest decimal digits of the magnitude. */
  function ToString(n: int): (r: string)
    ensures r != []
    ensures forall k :: 0 <= k < |r| ==> IsDigit(r[k]) || (k == 0 && r[k] == '-')
    ensures r[0] == '-' <==> n < 0
    ensures var d := if n < 0 then r[1..] else r; d != [] && (|d| > 1 ==> d[0] != '0')
  {
    if n < 0 then ['-'] + NatDigits(-n) else NatDigits(n)
  }

  /** The digits of `s` after an optional leading `+` or `-`. */
  function Unsigned(s: string): (d: string)
    requires s != []
    ensures |d| == |s| || |d| == |s| - 1
  {
    if s[0] == '-' || s[0] == '+' then s[1..] else s
  }

  /** Whether `s` is an optional sign followed by at least one decimal digit. */
  predicate WellFormed(s: string) {
    s != [] && Unsigned(s) != [] && AllDigits(Unsigned(s))
  }

  /** The mathematical value of a well-formed numeral, of any size. */
  function NumeralValue(s: string): int
    requires WellFormed(s)
  {
    var m: int := DigitsValue(Unsigned(s));
    if s[0] == '-' then -m else m
  }

  /** `Integer.parseInt(s)`: an optional `+` or `-`, then one or more decimal
      digits, whose value must lie in the range of `int`; anything else is a
      `NumberFormatException`, here `None`. */
  function ParseInt(s: string): (r: Option<Int32>)
    ensures r.Some? ==> s != [] && s != "-" && s != "+"
    ensures r.Some? ==> forall k :: 0 <= k < |s| ==> IsDigit(s[k]) || (k == 0 && s[k] in "+-")
    ensures r.Some? ==> (s[0] == '-' ==> r.value <= 0) && (s[0] != '-' ==> r.value >= 0)
    ensures r.Some? <==> WellFormed(s) && MinInt <= NumeralValue(s) <= MaxInt
    ensures r.Some? ==> r.value == NumeralValue(s)
  {
    if s == [] then None
    else
      var signed := s[0] == '-' || s[0] == '+';
      var digits := if signed then s[1..] else s;
      if digits == [] || !AllDigits(digits) then None
      else
        var magnitude: int := DigitsValue(digits);
        var v := if s[0] == '-' then -magnitude else magnitude;
        if MinInt <= v <= MaxInt then Some(v) else None
  }

  lemma {:induction false} DigitsRoundTrip(n: nat)
    ensures DigitsValue(NatDigits(n)) == n
    decreases n
  {
    if n >= 10 {
      DigitsRoundTrip(n / 10);
      var r := NatDigits(n);
      assert r[..|r| - 1] == NatDigits(n / 10);
    }
  }

  /** Parsing the decimal rendering of an `int` gives the `int` back. */
  lemma ParseToString(n: Int32)
    ensures ParseInt(ToString(n)) == Some(n)
  {
    var m: int := n;
    DigitsRoundTrip(if m < 0 then -m else m);
    if n < 0 {
      assert ToString(n)[1..] == NatDigits(-m);
    }
  }

  /** A value outside the range of `int` is rejected even when well formed. */
  lemma ParseOutOfRange(n: int)
    requires n < MinInt || MaxInt < n
    ensures ParseInt(ToString(n)) == None
  {
    DigitsRoundTrip(if n < 0 then -n else n);
    if n < 0 {
      assert ToString(n)[1..] == NatDigits(-n);
    }
  }
}
