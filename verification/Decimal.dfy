/** `strconv.Itoa` and `strconv.Atoi` for 64-bit integers. */
module Decimal {
  import opened ByteStrings

  const MINUS: Byte := 45
  const PLUS: Byte := 43
  const ZERO: Byte := 48

  function Digits(n: nat): (s: Bytes)
    ensures |s| >= 1 && ZERO <= s[0] <= ZERO + 9
  {
    if n < 10 then [ZERO + n] else Digits(n / 10) + [ZERO + n % 10]
  }

  function Itoa(i: I64): Bytes {
    if i < 0 then [MINUS] + Digits(-(i as int)) else Digits(i)
  }

  /** Parsing the digits: a value, a byte that is no digit, or a value of 2^64 or more, whichever is met first. */
  datatype Parsed = Value(n: nat) | Syntax | Range

  function ParseDigits(s: Bytes, n: nat): Parsed
    decreases |s|
  {
    if s == [] then Value(n)
    else if !(ZERO <= s[0] <= ZERO + 9) then Syntax
    else
      var next := 10 * n + (s[0] - ZERO);
      if next >= TWO_64 then Range else ParseDigits(s[1..], next)
  }

  /** What `Atoi` returns beside its error, which every caller here ignores. */
  function Atoi(s: Bytes): I64 {
    var negative := s != [] && s[0] == MINUS;
    var digits := if s != [] && (s[0] == MINUS || s[0] == PLUS) then s[1..] else s;
    if digits == [] then 0
    else
      match ParseDigits(digits, 0)
      case Syntax => 0
      case Range => if negative then -TWO_63 else TWO_63 - 1
      case Value(n) =>
        if negative then (if n > TWO_63 then -TWO_63 else -(n as int)) else (if n >= TWO_63 then TWO_63 - 1 else n)
  }

  lemma {:induction false} DigitsParse(n: nat, rest: Bytes)
    requires n < TWO_64
    ensures ParseDigits(Digits(n) + rest, 0) == ParseDigits(rest, n)
    decreases n
  {
    if n < 10 {
      assert (Digits(n) + rest)[1..] == rest;
    } else {
      var last: Bytes := [ZERO + n % 10];
      DigitsParse(n / 10, last + rest);
      assert Digits(n) + rest == Digits(n / 10) + (last + rest);
      assert (last + rest)[1..] == rest;
    }
  }

  /** Every 64-bit integer survives being written and parsed. */
  lemma DecimalRoundTrip(i: I64)
    ensures Atoi(Itoa(i)) == i
  {
    var n: int := if i < 0 then -(i as int) else i;
    DigitsParse(n, []);
    assert Digits(n) + [] == Digits(n);
    if i < 0 {
      assert Itoa(i)[1..] == Digits(n);
    }
  }

  lemma {:induction false} DigitsOverflow(n: nat, rest: Bytes)
    requires n >= TWO_64
    ensures ParseDigits(Digits(n) + rest, 0) == Range
    decreases n
  {
    hide Digits, ParseDigits;
    var last: Bytes := [ZERO + n % 10];
    LastDigit(n, rest);
    if n / 10 >= TWO_64 {
      DigitsOverflow(n / 10, last + rest);
    } else {
      DigitsParse(n / 10, last + rest);
      LastDigitOverflows(n, rest);
    }
  }

  lemma LastDigit(n: nat, rest: Bytes)
    requires n >= 10
    ensures Digits(n) + rest == Digits(n / 10) + ([ZERO + n % 10] + rest)
  {
    assert Digits(n) == Digits(n / 10) + [ZERO + n % 10];
  }

  lemma LastDigitOverflows(n: nat, rest: Bytes)
    requires n >= TWO_64
    ensures ParseDigits([ZERO + n % 10] + rest, n / 10) == Range
  {
  }

  /** A decimal number of any size is parsed as the nearest 64-bit integer; a plus sign makes no difference. */
  lemma AtoiClamps(n: nat)
    ensures Atoi(Digits(n)) == (if n < TWO_63 then n else TWO_63 - 1)
    ensures Atoi([PLUS] + Digits(n)) == Atoi(Digits(n))
    ensures Atoi([MINUS] + Digits(n)) == (if n <= TWO_63 then -(n as int) else -TWO_63)
  {
    hide Digits, ParseDigits;
    if n < TWO_64 {
      DigitsParse(n, []);
      NoMoreDigits(n);
    } else {
      DigitsOverflow(n, []);
    }
    assert Digits(n) + [] == Digits(n);
    assert ([PLUS] + Digits(n))[1..] == Digits(n) && ([MINUS] + Digits(n))[1..] == Digits(n);
  }

  lemma NoMoreDigits(n: nat)
    ensures ParseDigits([], n) == Value(n)
  {
  }

  /** Anything else is 0, as `Atoi` says beside its error: here, a byte that is no digit behind a number in range. */
  lemma AtoiSyntax(n: nat, bad: Byte, rest: Bytes)
    requires n < TWO_64 && !(ZERO <= bad <= ZERO + 9)
    ensures Atoi(Digits(n) + [bad] + rest) == 0 && Atoi([MINUS] + (Digits(n) + [bad] + rest)) == 0
    ensures Atoi([]) == 0
  {
    hide Digits;
    DigitsParse(n, [bad] + rest);
    assert Digits(n) + [bad] + rest == Digits(n) + ([bad] + rest);
    var s := Digits(n) + [bad] + rest;
    assert s[0] == Digits(n)[0] && ([MINUS] + s)[1..] == s;
  }
}
