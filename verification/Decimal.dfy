/** Decimal notation: printing, parsing, and the canonical signed integers that counters accept. */
module Decimal {
  import opened Bytes

  const MINUS: byte := 45
  const PLUS: byte := 43

  function Digit(d: nat): byte
    requires d < 10
  {
    (48 + d) as byte
  }

  predicate IsDigit(b: byte) {
    48 <= b <= 57
  }

  predicate AllDigits(s: Bytes) {
    forall i :: 0 <= i < |s| ==> IsDigit(s[i])
  }

  /** The decimal notation of a natural number. */
  function Digits(n: nat): (s: Bytes)
    ensures |s| >= 1 && AllDigits(s)
  {
    if n < 10 then [Digit(n)] else Digits(n / 10) + [Digit(n % 10)]
  }

  /** The number a digit string denotes. */
  function Value(s: Bytes): nat
    requires AllDigits(s)
  {
    if s == [] then 0 else 10 * Value(s[..|s| - 1]) + (s[|s| - 1] as int - 48)
  }

  /** The decimal notation of an integer. */
  function Print(n: int): Bytes {
    if n < 0 then [MINUS] + Digits(-n) else Digits(n)
  }

  lemma {:induction false} ValueOfDigits(n: nat)
    ensures Value(Digits(n)) == n
  {
    if n >= 10 {
      ValueOfDigits(n / 10);
      assert Digits(n)[..|Digits(n)| - 1] == Digits(n / 10);
    } else {
      assert Digits(n)[..0] == [];
    }
  }

  function Pow10(k: nat): (p: nat)
    ensures p >= 1
  {
    if k == 0 then 1 else 10 * Pow10(k - 1)
  }

  lemma {:induction false} DigitsLength(n: nat, k: nat)
    requires 1 <= k && n < Pow10(k)
    ensures |Digits(n)| <= k
  {
    if n >= 10 {
      assert Pow10(k) == 10 * Pow10(k - 1);
      assert Pow10(0) == 1;
      DigitsLength(n / 10, k - 1);
    }
  }

  lemma {:induction false} DigitsMonotone(m: nat, n: nat)
    requires m <= n
    ensures |Digits(m)| <= |Digits(n)|
  {
    if m >= 10 {
      DigitsMonotone(m / 10, n / 10);
    }
  }

  function InRange(n: int): (r: Option<int>)
    ensures r.Some? ==> FitsI64(r.value)
  {
    if FitsI64(n) then Some(n) else None
  }

  /**
   * The standard library's decimal parser for signed 64-bit values: an optional sign, at least
   * one digit, leading zeros allowed, `None` on overflow.
   */
  function ParseI64(s: Bytes): (r: Option<int>)
    ensures r.Some? ==> FitsI64(r.value)
  {
    if s == [] then None
    else
      var digits := if s[0] == MINUS || s[0] == PLUS then s[1..] else s;
      if digits == [] || !AllDigits(digits) then None
      else InRange(if s[0] == MINUS then 0 - Value(digits) else Value(digits))
  }

  /** The counter commands' reading of a stored value: canonical signed 64-bit notation only. */
  function Integer(value: Bytes): Option<int> {
    if value == [] || |value| > 20 then None
    else
      match ParseI64(value)
      case None => None
      case Some(n) => if Print(n) == value then Some(n) else None
  }

  lemma ParsePrint(n: int)
    ensures ParseI64(Print(n)) == if FitsI64(n) then Some(n) else None
  {
    var digits := Digits(if n < 0 then -n else n);
    ValueOfDigits(if n < 0 then -n else n);
    assert IsDigit(digits[0]);
    if n < 0 {
      assert Print(n)[1..] == digits;
    }
  }

  lemma PrintLength(n: int)
    requires FitsI64(n)
    ensures 1 <= |Print(n)| <= 20
  {
    assert Pow10(19) == 10_000_000_000_000_000_000 by {
      assert Pow10(4) == 10_000;
      assert Pow10(8) == 100_000_000;
      assert Pow10(12) == 1_000_000_000_000;
      assert Pow10(16) == 10_000_000_000_000_000;
    }
    DigitsLength(if n < 0 then -n else n, 19);
  }

  /** `Integer` accepts exactly the canonical forms and undoes printing. */
  lemma IntegerIsCanonical(value: Bytes, n: int)
    ensures Integer(value) == Some(n) <==> FitsI64(n) && value == Print(n)
  {
    if FitsI64(n) && value == Print(n) {
      ParsePrint(n);
      PrintLength(n);
    }
  }

  /** Counts decimal digits by repeated division. */
  method DecimalDigits(value: nat) returns (digits: nat)
    ensures digits == |Digits(value)|
  {
    var rest := value;
    digits := 1;
    while rest >= 10
      invariant digits + |Digits(rest)| == |Digits(value)| + 1
    {
      rest := rest / 10;
      digits := digits + 1;
    }
  }
}
