/** Decimal rendering of integers, as `strconv.Itoa` does it, with its inverse.
    The relay names a pin by the decimal rendering of its number, so distinct
    numbers must give distinct names: that is what the round trip here guarantees. */
module Decimal {
  import opened Wrappers

  /** The range of Go's `int` on a 64-bit target, the type of a pin number. */
  predicate IsGoInt(x: int) {
    -0x8000_0000_0000_0000 <= x < 0x8000_0000_0000_0000
  }

  type GoInt = x: int | IsGoInt(x)

  predicate IsDigit(c: char) {
    '0' <= c <= '9'
  }

  predicate AllDigits(s: string) {
    forall i :: 0 <= i < |s| ==> IsDigit(s[i])
  }

  /** Digits as `strconv.Itoa` writes them: at least one, and no leading zero
      unless the number is zero itself. */
  predicate IsCanonical(s: string) {
    |s| > 0 && AllDigits(s) && (s[0] == '0' ==> |s| == 1)
  }

  function DigitValue(c: char): (d: nat)
    requires IsDigit(c)
    ensures d < 10
  {
    c as int - '0' as int
  }

  function DigitChar(d: nat): (c: char)
    requires d < 10
    ensures IsDigit(c)
    ensures DigitValue(c) == d
  {
    (d + '0' as int) as char
  }

  /** The digits of a natural number, most significant first. */
  function Digits(n: nat): (s: string)
    ensures IsCanonical(s)
    ensures s[0] == '0' <==> n == 0
    decreases n
  {
    if n < 10 then [DigitChar(n)] else Digits(n / 10) + [DigitChar(n % 10)]
  }

  /** `strconv.Itoa`: an optional minus sign followed by the digits of the magnitude. */
  function Itoa(n: int): (s: string)
    ensures |s| > 0
    ensures s[0] == '-' <==> n < 0
    ensures n >= 0 ==> IsCanonical(s)
    ensures n < 0 ==> IsCanonical(s[1..]) && s[1] != '0'
  {
    if n < 0 then "-" + Digits(-n) else Digits(n)
  }

  /** The number a string of digits denotes. */
  function Value(s: string): nat
    requires AllDigits(s)
    decreases |s|
  {
    if |s| == 0 then 0 else Value(s[..|s| - 1]) * 10 + DigitValue(s[|s| - 1])
  }

  /** The inverse of Itoa: accepts exactly the strings Itoa produces. */
  function Parse(s: string): Option<int> {
    if |s| > 1 && s[0] == '-' && IsCanonical(s[1..]) && s[1] != '0' then Some(-(Value(s[1..]) as int))
    else if IsCanonical(s) then Some(Value(s))
    else None
  }

  lemma {:induction false} DigitsRoundTrip(n: nat)
    ensures Value(Digits(n)) == n
    decreases n
  {
    if n >= 10 {
      DigitsRoundTrip(n / 10);
      var s := Digits(n);
      assert s[..|s| - 1] == Digits(n / 10);
    }
  }

  lemma {:induction false} ValueRoundTrip(s: string)
    requires IsCanonical(s)
    ensures Digits(Value(s)) == s
    decreases |s|
  {
    var c := s[|s| - 1];
    var d := DigitValue(c);
    assert DigitChar(d) == c;
    if |s| > 1 {
      var p := s[..|s| - 1];
      assert p[0] == s[0];
      ValueRoundTrip(p);
      var v := Value(p);
      assert v != 0;
      assert (v * 10 + d) / 10 == v && (v * 10 + d) % 10 == d;
      assert s == p + [c];
    }
  }

  /** Parsing what Itoa rendered gives the number back. */
  lemma ItoaRoundTrip(n: int)
    ensures Parse(Itoa(n)) == Some(n)
  {
    var s := Itoa(n);
    if n < 0 {
      DigitsRoundTrip(-n);
      assert s[1..] == Digits(-n);
    } else {
      DigitsRoundTrip(n);
    }
  }

  /** Whatever Parse accepts is the rendering of the number it yields. */
  lemma ParseRoundTrip(s: string, n: int)
    requires Parse(s) == Some(n)
    ensures Itoa(n) == s
  {
    if |s| > 1 && s[0] == '-' && IsCanonical(s[1..]) && s[1] != '0' {
      ValueRoundTrip(s[1..]);
      assert s == "-" + s[1..];
    } else {
      ValueRoundTrip(s);
    }
  }

  /** Distinct numbers have distinct renderings. */
  lemma ItoaInjective(a: int, b: int)
    requires Itoa(a) == Itoa(b)
    ensures a == b
  {
    ItoaRoundTrip(a);
    ItoaRoundTrip(b);
  }

  /** A name is the rendering of some Go `int` exactly when Parse accepts it and the
      number it denotes is in range: only such names can be reached by a pin number. */
  lemma RenderedNames(s: string)
    ensures (exists n: GoInt :: Itoa(n) == s) <==> Parse(s).Some? && IsGoInt(Parse(s).value)
  {
    if Parse(s).Some? && IsGoInt(Parse(s).value) {
      var v: GoInt := Parse(s).value;
      ParseRoundTrip(s, v);
      assert Itoa(v) == s;
    }
    if exists n: GoInt :: Itoa(n) == s {
      var n: GoInt :| Itoa(n) == s;
      ItoaRoundTrip(n);
    }
  }

  lemma ItoaExamples()
    ensures Itoa(37) == "37"
    ensures Itoa(0) == "0"
    ensures Itoa(-5) == "-5"
  {
  }
}
