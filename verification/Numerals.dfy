/** Decimal and hexadecimal numerals as the C library prints and reads them. */
module Numerals {
  import opened Bytes

  const MINUS: byte := 45

  predicate IsDigit(b: byte) {
    48 <= b <= 57
  }

  /** The value of a digit string and of the digits that follow it, and what follows those. */
  function ParseDigits(value: nat, s: seq<byte>): (r: (nat, seq<byte>))
    ensures |r.1| <= |s|
    decreases |s|
  {
    if s == [] || !IsDigit(s[0]) then (value, s)
    else ParseDigits(10 * value + (s[0] - 48), s[1..])
  }

  /** printf's %d on a non-negative number. */
  function Digits(n: nat): (d: seq<byte>)
    ensures d != [] && forall i :: 0 <= i < |d| ==> IsDigit(d[i])
    ensures d[0] == 48 ==> n == 0 && d == [48]
    decreases n
  {
    if n < 10 then [48 + n] else Digits(n / 10) + [48 + n % 10]
  }

  function Decimal(n: int): (d: seq<byte>)
    ensures d != []
  {
    if n < 0 then [MINUS] + Digits(-n) else Digits(n)
  }

  predicate EndsNumber(rest: seq<byte>) {
    rest == [] || !IsDigit(rest[0])
  }

  lemma {:induction false} ParseDigitsAppend(value: nat, d: seq<byte>, last: byte, rest: seq<byte>)
    requires IsDigit(last) && forall i :: 0 <= i < |d| ==> IsDigit(d[i])
    requires EndsNumber(rest)
    ensures ParseDigits(value, d + [last] + rest) == (10 * ParseDigits(value, d).0 + (last - 48), rest)
    decreases |d|
  {
    var s := d + [last] + rest;
    if d == [] {
      assert s[1..] == rest;
      assert ParseDigits(value, s) == ParseDigits(10 * value + (last - 48), rest);
    } else {
      assert s[1..] == d[1..] + [last] + rest;
      ParseDigitsAppend(10 * value + (d[0] - 48), d[1..], last, rest);
    }
  }

  lemma {:induction false} DigitsRoundTrip(n: nat, rest: seq<byte>)
    requires EndsNumber(rest)
    ensures ParseDigits(0, Digits(n) + rest) == (n, rest)
    decreases n
  {
    if n < 10 {
      assert (Digits(n) + rest)[1..] == rest;
      assert ParseDigits(0, Digits(n) + rest) == ParseDigits(n, rest);
    } else {
      DigitsRoundTrip(n / 10, []);
      assert Digits(n / 10) + [] == Digits(n / 10);
      ParseDigitsAppend(0, Digits(n / 10), 48 + n % 10, rest);
      assert Digits(n) + rest == Digits(n / 10) + [48 + n % 10] + rest;
    }
  }

  function PowerOfTen(k: nat): (p: nat)
    ensures p > 0
  {
    if k == 0 then 1 else 10 * PowerOfTen(k - 1)
  }

  lemma {:induction false} DigitsLength(n: nat, k: nat)
    requires k > 0 && n < PowerOfTen(k)
    ensures |Digits(n)| <= k
    decreases n
  {
    if n >= 10 {
      assert PowerOfTen(1) == 10 * PowerOfTen(0);
      DigitsLength(n / 10, k - 1);
    }
  }

  /** A lower-case hexadecimal digit. */
  function HexDigit(n: nat): (b: byte)
    requires n < 16
  {
    if n < 10 then 48 + n else 87 + n
  }

  function HexValue(b: byte): Option<nat> {
    if 48 <= b <= 57 then Some(b - 48)
    else if 97 <= b <= 102 then Some(b - 87)
    else if 65 <= b <= 70 then Some(b - 55)
    else None
  }
}
