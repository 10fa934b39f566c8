/**
 * How a product identifier is derived from an upstream registration number:
 * every character outside 0-9 is removed, the rest is read as a signed 64-bit
 * decimal, and when that read fails (no digits left, or the value does not fit
 * in a long) a fallback identifier is computed from the product name's Java
 * hash code and a clock reading.
 */
module Identifier {
  import opened Wrappers

  /** Long.MAX_VALUE. */
  const MaxLong: int := 0x7FFF_FFFF_FFFF_FFFF
  /** The modulus applied to the fallback identifier. */
  const FallbackModulus: int := 1_000_000_000

  predicate IsDigit(c: char) { '0' <= c <= '9' }

  predicate AllDigits(s: string) { forall i :: 0 <= i < |s| ==> IsDigit(s[i]) }

  /** The registration number with every character outside 0-9 removed (replaceAll("[^0-9]", "")). */
  function Digits(s: string): (r: string)
    ensures |r| <= |s|
    ensures AllDigits(r)
  {
    if s == [] then []
    else if IsDigit(s[0]) then [s[0]] + Digits(s[1..])
    else Digits(s[1..])
  }

  function DigitValue(c: char): nat
    requires IsDigit(c)
  {
    c as int - '0' as int
  }

  /** The value of a decimal digit string, most significant digit first. */
  function DecimalValue(ds: string): nat
    requires AllDigits(ds)
  {
    if ds == [] then 0 else 10 * DecimalValue(ds[..|ds| - 1]) + DigitValue(ds[|ds| - 1])
  }

  /** Appending a digit multiplies the value by ten and adds the digit. */
  lemma DecimalAppend(ds: string, c: char)
    requires AllDigits(ds) && IsDigit(c)
    ensures AllDigits(ds + [c])
    ensures DecimalValue(ds + [c]) == 10 * DecimalValue(ds) + DigitValue(c)
  {
    assert (ds + [c])[..|ds|] == ds;
  }

  /** Long.parseLong applied to a string of digits: fails on "" and on values above Long.MAX_VALUE. */
  function ParseLong(ds: string): (r: Option<int>)
    requires AllDigits(ds)
    ensures r.None? <==> ds == [] || DecimalValue(ds) > MaxLong
    ensures r.Some? ==> 0 <= r.value <= MaxLong && r.value == DecimalValue(ds)
  {
    if ds == [] || DecimalValue(ds) > MaxLong then None else Some(DecimalValue(ds))
  }

  /** A Java int computation: the value reduced to 32-bit two's complement. */
  function WrapInt(x: int): (r: int)
    ensures -0x8000_0000 <= r < 0x8000_0000
    ensures (r - x) % 0x1_0000_0000 == 0
  {
    (x + 0x8000_0000) % 0x1_0000_0000 - 0x8000_0000
  }

  /** A Java long computation: the value reduced to 64-bit two's complement. */
  function WrapLong(x: int): (r: int)
    ensures -0x8000_0000_0000_0000 <= r < 0x8000_0000_0000_0000
    ensures -0x8000_0000_0000_0000 <= x < 0x8000_0000_0000_0000 ==> r == x
  {
    (x + 0x8000_0000_0000_0000) % 0x1_0000_0000_0000_0000 - 0x8000_0000_0000_0000
  }

  /** String.hashCode: h = 31 * h + c over the characters, in 32-bit int arithmetic. */
  function JavaHashCode(s: string): (h: int)
    ensures -0x8000_0000 <= h < 0x8000_0000
  {
    if s == [] then 0
    else WrapInt(31 * JavaHashCode(s[..|s| - 1]) + s[|s| - 1] as int)
  }

  /** Java's / on long: the quotient rounds toward zero. */
  function TruncatedDiv(x: int, m: int): int
    requires m > 0
  {
    if x >= 0 then x / m else -((-x) / m)
  }

  /**
   * Java's % on long: the remainder takes the sign of the dividend, and
   * (x / m) * m + x % m == x holds with the truncating quotient.
   */
  function TruncatedRem(x: int, m: int): (r: int)
    requires m > 0
    ensures -m < r < m
    ensures x >= 0 ==> 0 <= r
    ensures x <= 0 ==> r <= 0
    ensures TruncatedDiv(x, m) * m + r == x
  {
    if x >= 0 then x % m else -((-x) % m)
  }

  function Abs(x: int): nat { if x < 0 then -x else x }

  /**
   * Math.abs((name.hashCode() + millis) % 1000000000L): the int hash is widened
   * to long, the sum is taken in long arithmetic, and the remainder truncates.
   */
  function FallbackId(name: string, millis: int): (id: int)
    ensures 0 <= id < FallbackModulus
  {
    Abs(TruncatedRem(WrapLong(JavaHashCode(name) + millis), FallbackModulus))
  }

  /** The identifier parseProductFromJson assigns to a product. */
  function DeriveId(registrationNo: string, name: string, millis: int): (id: int)
    ensures 0 <= id <= MaxLong
    ensures Digits(registrationNo) != [] && DecimalValue(Digits(registrationNo)) <= MaxLong
            ==> id == DecimalValue(Digits(registrationNo))
    ensures Digits(registrationNo) == [] || DecimalValue(Digits(registrationNo)) > MaxLong
            ==> id < FallbackModulus
  {
    match ParseLong(Digits(registrationNo))
    case Some(v) => v
    case None => FallbackId(name, millis)
  }

  /** Filtering distributes over concatenation. */
  lemma {:induction false} DigitsConcat(a: string, b: string)
    ensures Digits(a + b) == Digits(a) + Digits(b)
  {
    if a == [] {
      assert a + b == b;
    } else {
      assert (a + b)[0] == a[0];
      assert (a + b)[1..] == a[1..] + b;
      DigitsConcat(a[1..], b);
    }
  }

  /** A string of digits is left as it is by the filter. */
  lemma {:induction false} DigitsOfDigitString(ds: string)
    requires AllDigits(ds)
    ensures Digits(ds) == ds
  {
    if ds != [] {
      DigitsOfDigitString(ds[1..]);
    }
  }

  /** Filtering twice is filtering once. */
  lemma DigitsIdempotent(s: string)
    ensures Digits(Digits(s)) == Digits(s)
  {
    DigitsOfDigitString(Digits(s));
  }

  /** A non-digit character anywhere in a registration number is ignored. */
  lemma NonDigitIgnored(a: string, c: char, b: string)
    requires !IsDigit(c)
    ensures Digits(a + [c] + b) == Digits(a + b)
  {
    DigitsConcat(a + [c], b);
    DigitsConcat(a, [c]);
    DigitsConcat(a, b);
    assert Digits([c]) == [] by {
      assert [c][1..] == [];
    }
  }

  /** Inserting a non-digit character into a registration number leaves the identifier unchanged. */
  lemma DeriveIdIgnoresNonDigit(a: string, c: char, b: string, name: string, millis: int)
    requires !IsDigit(c)
    ensures DeriveId(a + [c] + b, name, millis) == DeriveId(a + b, name, millis)
  {
    NonDigitIgnored(a, c, b);
  }

  /** A leading zero does not change a decimal value. */
  lemma {:induction false} DecimalLeadingZero(ds: string)
    requires AllDigits(ds)
    ensures AllDigits(['0'] + ds)
    ensures DecimalValue(['0'] + ds) == DecimalValue(ds)
  {
    var z := ['0'] + ds;
    if ds == [] {
      assert z[..0] == [];
    } else {
      assert z[..|z| - 1] == ['0'] + ds[..|ds| - 1];
      assert z[|z| - 1] == ds[|ds| - 1];
      DecimalLeadingZero(ds[..|ds| - 1]);
    }
  }

  /** Registration numbers that differ by a leading zero get the same identifier, once they hold a digit. */
  lemma DeriveIdIgnoresLeadingZero(registrationNo: string, name: string, millis: int)
    requires Digits(registrationNo) != []
    ensures DeriveId(['0'] + registrationNo, name, millis) == DeriveId(registrationNo, name, millis)
  {
    var r := ['0'] + registrationNo;
    assert r[1..] == registrationNo;
    assert Digits(r) == ['0'] + Digits(registrationNo);
    DecimalLeadingZero(Digits(registrationNo));
  }

  function Pow10(n: nat): (r: nat)
  {
    if n == 0 then 1 else 10 * Pow10(n - 1)
  }

  /** A decimal string of n digits stays below 10^n. */
  lemma {:induction false} DecimalBound(ds: string)
    requires AllDigits(ds)
    ensures DecimalValue(ds) < Pow10(|ds|)
  {
    if ds != [] {
      var p := ds[..|ds| - 1];
      DecimalBound(p);
      assert DecimalValue(p) + 1 <= Pow10(|p|);
      assert 10 * DecimalValue(p) + 10 <= 10 * Pow10(|p|);
    }
  }

  /** A registration number holding between one and eighteen digits never takes the fallback path. */
  lemma ShortRegistrationParses(registrationNo: string, name: string, millis: int)
    requires 1 <= |Digits(registrationNo)| <= 18
    ensures DeriveId(registrationNo, name, millis) == DecimalValue(Digits(registrationNo))
  {
    var ds := Digits(registrationNo);
    DecimalBound(ds);
    Pow10Monotone(|ds|, 18);
    assert Pow10(18) <= MaxLong by {
      assert Pow10(2) == 100;
      assert Pow10(4) == 10_000;
      assert Pow10(6) == 1_000_000;
      assert Pow10(8) == 100_000_000;
      assert Pow10(10) == 10_000_000_000;
      assert Pow10(12) == 1_000_000_000_000;
      assert Pow10(14) == 100_000_000_000_000;
      assert Pow10(16) == 10_000_000_000_000_000;
      assert Pow10(18) == 1_000_000_000_000_000_000;
    }
  }

  lemma {:induction false} Pow10Monotone(m: nat, n: nat)
    requires m <= n
    ensures Pow10(m) <= Pow10(n)
  {
    if m < n {
      Pow10Monotone(m, n - 1);
    }
  }

  /** The canonical decimal spelling of a natural number, an independent reference for DecimalValue. */
  function ToDecimal(n: nat): (s: string)
    ensures |s| >= 1
    ensures AllDigits(s)
  {
    var d := ['0' + ((n % 10) as char)];
    if n < 10 then d else ToDecimal(n / 10) + d
  }

  /** Reading the decimal spelling of n gives back n. */
  lemma {:induction false} DecimalRoundTrip(n: nat)
    ensures DecimalValue(ToDecimal(n)) == n
  {
    var s := ToDecimal(n);
    if n >= 10 {
      DecimalRoundTrip(n / 10);
      assert s[..|s| - 1] == ToDecimal(n / 10);
    }
  }

  /**
   * A registration number that spells a long value n between digit-free text,
   * such as "2020-123456" around ToDecimal(2020123456) with separators removed,
   * gets the identifier n.
   */
  lemma FormattedRegistration(prefix: string, n: nat, suffix: string, name: string, millis: int)
    requires Digits(prefix) == [] && Digits(suffix) == []
    requires n <= MaxLong
    ensures DeriveId(prefix + ToDecimal(n) + suffix, name, millis) == n
  {
    DigitsConcat(prefix + ToDecimal(n), suffix);
    DigitsConcat(prefix, ToDecimal(n));
    DigitsOfDigitString(ToDecimal(n));
    assert Digits(prefix + ToDecimal(n) + suffix) == ToDecimal(n);
    DecimalRoundTrip(n);
  }

  /** For every product name some clock reading makes the fallback identifier zero. */
  lemma FallbackCanBeZero(name: string)
    ensures FallbackId(name, 1_700_000_000_000 - JavaHashCode(name)) == 0
  {
    assert WrapLong(1_700_000_000_000) == 1_700_000_000_000;
  }
}
