/** Decimal and hexadecimal text, as Go prints it and Python reads it. */
module Text {

  predicate IsDigit(c: char) {
    '0' <= c <= '9'
  }

  predicate AllDigits(s: string) {
    forall i :: 0 <= i < |s| ==> IsDigit(s[i])
  }

  function Digit(n: nat): (c: char)
    requires n < 10
    ensures IsDigit(c)
  {
    '0' + (n as char)
  }

  function DigitValue(c: char): (n: nat)
    requires IsDigit(c)
    ensures n < 10 && Digit(n) == c
  {
    (c - '0') as nat
  }

  /** The last `width` decimal digits of `n`. */
  function Pad(n: nat, width: nat): (s: string)
    ensures |s| == width && AllDigits(s)
  {
    if width == 0 then "" else Pad(n / 10, width - 1) + [Digit(n % 10)]
  }

  /** Decimal form without leading zeros. */
  function Decimal(n: nat): (s: string)
    ensures |s| > 0 && AllDigits(s)
  {
    if n < 10 then [Digit(n)] else Decimal(n / 10) + [Digit(n % 10)]
  }

  function IntText(n: int): string {
    if n < 0 then "-" + Decimal(-n) else Decimal(n)
  }

  /** Python's int() on a run of decimal digits. */
  function Value(s: string): nat
    requires AllDigits(s)
  {
    if s == "" then 0 else 10 * Value(s[..|s| - 1]) + DigitValue(s[|s| - 1])
  }

  function Pow10(k: nat): (p: nat)
    ensures p > 0
  {
    if k == 0 then 1 else 10 * Pow10(k - 1)
  }

  lemma {:induction false} PadValue(n: nat, width: nat)
    requires n < Pow10(width)
    ensures Value(Pad(n, width)) == n
  {
    if width == 0 {
    } else {
      PadValue(n / 10, width - 1);
    }
  }

  lemma {:induction false} DecimalValue(n: nat)
    ensures Value(Decimal(n)) == n
  {
    if n < 10 {
    } else {
      DecimalValue(n / 10);
    }
  }

  /** No leading zeros. */
  lemma {:induction false} DecimalLeads(n: nat)
    ensures Decimal(n)[0] == '0' ==> n == 0 && Decimal(n) == "0"
  {
    if n < 10 {
    } else {
      DecimalLeads(n / 10);
    }
  }

  /** The printed form of an integer is its sign, if negative, and its digits; no other such text has its value. */
  lemma IntForm(n: int, digits: string)
    requires digits != "" && AllDigits(digits) && (digits[0] == '0' ==> digits == "0")
    ensures IntText(n) == digits <==> n >= 0 && Value(digits) == n
    ensures IntText(n) == "-" + digits <==> n < 0 && Value(digits) == -n
  {
    DecimalValue(if n < 0 then -n else n);
    OnlyDecimal(digits);
    assert IntText(n)[0] == '-' <==> n < 0;
    if IntText(n) == "-" + digits {
      assert IntText(n)[1..] == digits;
    }
    if n < 0 {
      assert IntText(n)[1..] == Decimal(-n);
    }
  }

  lemma {:induction false} OnlyDecimal(digits: string)
    requires digits != "" && AllDigits(digits) && (digits[0] == '0' ==> digits == "0")
    ensures digits == Decimal(Value(digits)) && (Value(digits) == 0 ==> digits == "0")
  {
    var init, last := digits[..|digits| - 1], digits[|digits| - 1];
    assert digits == init + [last];
    if init == "" {
      assert Value(init) == 0;
    } else {
      assert init[0] == digits[0];
      OnlyDecimal(init);
      assert Value(init) > 0;
      assert Decimal(Value(digits)) == Decimal(Value(init)) + [Digit(DigitValue(last))];
    }
  }

  lemma Digits(n: nat)
    ensures n < 10 ==> Digit(n) == "0123456789"[n]
    ensures n < 16 ==> HexDigit(n) == "0123456789abcdef"[n] && HexValue("0123456789ABCDEF"[n]) == n
  {}

  predicate IsHex(c: char) {
    IsDigit(c) || 'a' <= c <= 'f' || 'A' <= c <= 'F'
  }

  function HexDigit(n: nat): (c: char)
    requires n < 16
    ensures IsDigit(c) || 'a' <= c <= 'f'
  {
    if n < 10 then '0' + (n as char) else 'a' + ((n - 10) as char)
  }

  function HexValue(c: char): (n: nat)
    requires IsHex(c)
    ensures n < 16
  {
    if IsDigit(c) then (c - '0') as nat
    else if 'a' <= c <= 'f' then (c - 'a') as nat + 10
    else (c - 'A') as nat + 10
  }

  lemma HexRoundTrip(n: nat)
    requires n < 16
    ensures HexValue(HexDigit(n)) == n
  {}

  /** The last `width` lower-case hexadecimal digits of `n`. */
  function Hex(n: nat, width: nat): (s: string)
    ensures |s| == width
    ensures forall i :: 0 <= i < |s| ==> IsDigit(s[i]) || 'a' <= s[i] <= 'f'
  {
    if width == 0 then "" else Hex(n / 16, width - 1) + [HexDigit(n % 16)]
  }

  function Pow16(k: nat): (p: nat)
    ensures p > 0
  {
    if k == 0 then 1 else 16 * Pow16(k - 1)
  }
}
