/** Decimal numbers as text: `strconv.Itoa` and `strconv.Atoi` of Go, `parse_unsigned` of the gateway. */
module Decimal {
  import opened Text

  predicate IsDigit(c: char) { '0' <= c <= '9' }

  function DigitChar(n: nat): (c: char)
    requires n < 10
    ensures IsDigit(c) && c as int - '0' as int == n
  {
    ('0' as int + n) as char
  }

  function Digits(n: nat): string {
    if n < 10 then [DigitChar(n)] else Digits(n / 10) + [DigitChar(n % 10)]
  }

  predicate AllDigits(s: string) {
    forall i :: 0 <= i < |s| ==> IsDigit(s[i])
  }

  function Value(s: string): nat
    requires AllDigits(s)
  {
    if s == "" then 0 else Value(s[..|s| - 1]) * 10 + (s[|s| - 1] as int - '0' as int)
  }

  function Itoa(n: int): string {
    if n < 0 then "-" + Digits(-n) else Digits(n)
  }

  /** An optional sign and at least one digit. */
  function Unsigned(s: string): string {
    if s != "" && (s[0] == '+' || s[0] == '-') then s[1..] else s
  }

  /** `strconv.Atoi`: no value on a syntax error or outside 64 bits. */
  function Atoi(s: string): Option<int> {
    var digits := Unsigned(s);
    if digits == "" || !AllDigits(digits) then None
    else
      var n: int := Value(digits);
      var v := if s[0] == '-' then -n else n;
      if -0x8000_0000_0000_0000 <= v < 0x8000_0000_0000_0000 then Some(v) else None
  }

  /** `parse_unsigned`: `std::stoull` over the whole text, which skips leading white space, accepts
      a sign and negates modulo 2^64; any other text gives the fallback. */
  function ParseUnsigned(s: string, fallback: nat): nat {
    var body := TrimLeft(s);
    var digits := Unsigned(body);
    if digits == "" || !AllDigits(digits) || Value(digits) >= 0x1_0000_0000_0000_0000 then fallback
    else if body[0] == '-' && Value(digits) > 0 then 0x1_0000_0000_0000_0000 - Value(digits)
    else Value(digits)
  }

  /** Printing then reading a number gives it back. */
  lemma {:induction false} ValueDigits(n: nat)
    ensures Digits(n) != "" && AllDigits(Digits(n)) && Value(Digits(n)) == n
  {
    if n >= 10 {
      ValueDigits(n / 10);
      var s := Digits(n);
      assert s[..|s| - 1] == Digits(n / 10);
    } else {
      assert Digits(n)[..0] == "";
    }
  }

  lemma DigitsAreNotSpace(n: nat)
    ensures Digits(n) != "" && Trimmed(Digits(n)) && Unsigned(Digits(n)) == Digits(n)
    ensures forall c :: c in Digits(n) ==> IsDigit(c)
  {
    ValueDigits(n);
  }

  lemma AtoiItoa(n: nat)
    requires n < 0x8000_0000_0000_0000
    ensures Atoi(Itoa(n)) == Some(n)
    ensures Atoi(Trim(Itoa(n))) == Some(n)
  {
    ValueDigits(n);
    DigitsAreNotSpace(n);
    TrimIdentity(Digits(n));
  }

  lemma ParseUnsignedItoa(n: nat, fallback: nat)
    requires n < 0x1_0000_0000_0000_0000
    ensures ParseUnsigned(Itoa(n), fallback) == n
  {
    ValueDigits(n);
    DigitsAreNotSpace(n);
  }
}
