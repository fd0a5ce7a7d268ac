/** Partner CSV amounts. An amount is one to seven digits, then nothing or a point and one or
    two digits; it is read as integer cents up to a limit of $1,000,000. Rendering with two
    decimals, as the program's notes do, is its inverse. */
module Dollars {
  import opened Basics

  const MAX_CENTS := 100_000_000
  const ZERO := 48
  const NINE := 57
  const POINT := 46

  predicate Digits(s: Text) { forall i | 0 <= i < |s| :: ZERO <= s[i] <= NINE }

  function Value(s: Text): nat
    requires Digits(s)
  {
    if s == [] then 0 else Value(s[..|s| - 1]) * 10 + (s[|s| - 1] - ZERO)
  }

  /** The position of the first point, or the length. */
  function Point(v: Text): (n: nat)
    ensures n <= |v| && (n < |v| ==> v[n] == POINT) && forall i | 0 <= i < n :: v[i] != POINT
  {
    if v == [] || v[0] == POINT then 0 else 1 + Point(v[1..])
  }

  /** Two fraction digits, the missing ones zero. */
  function Padded(s: Text): Text { s + seq(if |s| < 2 then 2 - |s| else 0, _ => ZERO) }

  /** One to seven digits, then nothing or a point and one or two digits. */
  predicate Shape(v: Text) {
    var n := Point(v);
    && 1 <= n <= 7 && Digits(v[..n])
    && (n == |v| || (2 <= |v| - n <= 3 && Digits(v[n + 1..])))
  }

  function UsdCents(v: Text): Option<nat> {
    if !Shape(v) then None
    else
      var n := Point(v);
      var fraction := Padded(if n == |v| then [] else v[n + 1..]);
      assert Digits(fraction);
      var cents := Value(v[..n]) * 100 + Value(fraction);
      if cents > MAX_CENTS then None else Some(cents)
  }

  // ---------------------------------------------------------------- rendering

  function DigitCode(d: nat): nat
    requires d < 10
  {
    ZERO + d
  }

  function Decimal(n: nat): (s: Text)
    ensures Digits(s) && s != []
  {
    if n < 10 then [DigitCode(n)] else Decimal(n / 10) + [DigitCode(n % 10)]
  }

  /** `toFixed(2)`. */
  function Fixed(cents: nat): Text {
    Decimal(cents / 100) + [POINT] + [DigitCode(cents % 100 / 10), DigitCode(cents % 10)]
  }

  lemma {:induction false} ValueDecimal(n: nat)
    ensures Value(Decimal(n)) == n
  {
    if n < 10 {
      assert Value([DigitCode(n)]) == Value([]) * 10 + n;
    } else {
      ValueDecimal(n / 10);
      assert (Decimal(n / 10) + [DigitCode(n % 10)])[..|Decimal(n / 10)|] == Decimal(n / 10);
    }
  }

  function Power(k: nat): nat { if k == 0 then 1 else 10 * Power(k - 1) }

  lemma {:induction false} DecimalLength(n: nat, k: nat)
    requires n < Power(k) && k > 0
    ensures |Decimal(n)| <= k
  {
    if n >= 10 {
      assert k > 1 by {
        assert Power(1) == 10;
      }
      DecimalLength(n / 10, k - 1);
    }
  }

  lemma {:induction false} PointAfter(a: Text, b: Text)
    requires Digits(a)
    ensures Point(a + [POINT] + b) == |a|
  {
    if a != [] {
      assert (a + [POINT] + b)[1..] == a[1..] + [POINT] + b;
      PointAfter(a[1..], b);
    } else {
      assert (a + [POINT] + b)[0] == POINT;
    }
  }

  lemma {:induction false} ValueTwo(tens: nat, ones: nat)
    requires tens < 10 && ones < 10
    ensures var s := [DigitCode(tens), DigitCode(ones)]; Digits(s) && Value(s) == 10 * tens + ones
  {
    var s := [DigitCode(tens), DigitCode(ones)];
    assert s[..1] == [DigitCode(tens)] && s[..1][..0] == [];
    assert Value(s[..1]) == Value([]) * 10 + tens;
  }

  /** Every amount up to the limit of $1,000,000 reads back as itself; a larger one that has
      the shape is refused. */
  lemma {:induction false} CentsRoundTrip(cents: nat)
    requires cents < 1_000_000_000
    ensures UsdCents(Fixed(cents)) == if cents <= MAX_CENTS then Some(cents) else None
  {
    var whole := Decimal(cents / 100);
    var fraction := [DigitCode(cents % 100 / 10), DigitCode(cents % 10)];
    var v := Fixed(cents);
    assert v == whole + [POINT] + fraction;
    PointAfter(whole, fraction);
    assert Power(7) == 10_000_000;
    DecimalLength(cents / 100, 7);
    ValueDecimal(cents / 100);
    ValueTwo(cents % 100 / 10, cents % 10);
    assert v[..|whole|] == whole && v[|whole| + 1..] == fraction;
    assert Padded(fraction) == fraction;
    assert cents % 100 / 10 * 10 + cents % 10 == cents % 100;
  }

  // ---------------------------------------------------------------- every amount, and nothing else

  /** An amount as people write it: whole dollars and up to two decimals. */
  predicate Parts(whole: Text, decimals: Text) {
    1 <= |whole| <= 7 && Digits(whole) && |decimals| <= 2 && Digits(decimals)
  }

  function Amount(whole: Text, decimals: Text): Text {
    if decimals == [] then whole else whole + [POINT] + decimals
  }

  function CentsIn(whole: Text, decimals: Text): nat
    requires Parts(whole, decimals)
  {
    Value(whole) * 100
    + (if |decimals| == 0 then 0
       else if |decimals| == 1 then 10 * (decimals[0] - 48)
       else 10 * (decimals[0] - 48) + (decimals[1] - 48))
  }

  lemma {:induction false} PointOfDigits(a: Text)
    requires Digits(a)
    ensures Point(a) == |a|
  {
    assert forall i | 0 <= i < |a| :: a[i] != POINT;
  }

  lemma {:induction false} PaddedValue(decimals: Text)
    requires |decimals| <= 2 && Digits(decimals)
    ensures Digits(Padded(decimals))
    ensures Value(Padded(decimals)) ==
              if |decimals| == 0 then 0
              else if |decimals| == 1 then 10 * (decimals[0] - 48)
              else 10 * (decimals[0] - 48) + (decimals[1] - 48)
  {
    var p := Padded(decimals);
    assert |p| == 2 && p == [p[0], p[1]];
    ValueTwo(p[0] - 48, p[1] - 48);
    assert [DigitCode(p[0] - 48), DigitCode(p[1] - 48)] == p;
  }

  /** Such an amount reads as its cents, up to $1,000,000. */
  lemma {:induction false} AmountReads(whole: Text, decimals: Text)
    requires Parts(whole, decimals)
    ensures var cents := CentsIn(whole, decimals);
            UsdCents(Amount(whole, decimals)) == if cents <= 100_000_000 then Some(cents) else None
  {
    var v := Amount(whole, decimals);
    PaddedValue(decimals);
    if decimals == [] {
      PointOfDigits(whole);
      assert v[..|whole|] == whole;
    } else {
      PointAfter(whole, decimals);
      assert v[..|whole|] == whole && v[|whole| + 1..] == decimals;
    }
  }

  /** And nothing else reads at all. */
  lemma {:induction false} OnlyAmountsRead(v: Text) returns (whole: Text, decimals: Text)
    requires UsdCents(v).Some?
    ensures Parts(whole, decimals) && v == Amount(whole, decimals)
  {
    var n := Point(v);
    whole, decimals := v[..n], if n == |v| then [] else v[n + 1..];
    assert n < |v| ==> v == v[..n] + [POINT] + v[n + 1..];
  }
}
