/** Positional numerals as the source's formatting and parsing routines produce and accept them. */
module Numerals {
  import opened Wrappers
  import opened MachineInts

  datatype Radix = Octal | Decimal {
    function Quotient(n: nat): nat {
      if Octal? then n / 8 else n / 10
    }

    function Remainder(n: nat): nat {
      if Octal? then n % 8 else n % 10
    }

    function Shift(n: nat, d: nat): nat {
      if Octal? then 8 * n + d else 10 * n + d
    }

    predicate IsDigit(c: char) {
      '0' <= c <= if Octal? then '7' else '9'
    }

    predicate AllDigits(s: string) {
      forall c :: c in s ==> IsDigit(c)
    }
  }

  function Digit(d: nat): char
    requires d < 10
  {
    '0' + d as char
  }

  /** Shortest numeral of `n`; zero is "0". */
  function Digits(n: nat, radix: Radix): (s: string)
    ensures |s| > 0 && radix.AllDigits(s)
  {
    var last := [Digit(radix.Remainder(n))];
    if radix.Quotient(n) == 0 then last else Digits(radix.Quotient(n), radix) + last
  }

  function Value(s: string, radix: Radix): nat
    requires radix.AllDigits(s)
  {
    if s == [] then 0
    else
      assert radix.IsDigit(s[|s| - 1]);
      radix.Shift(Value(s[..|s| - 1], radix), s[|s| - 1] as int - '0' as int)
  }

  lemma ValueAppend(s: string, d: nat, radix: Radix)
    requires radix.AllDigits(s) && d < (if radix.Octal? then 8 else 10)
    ensures radix.AllDigits(s + [Digit(d)])
    ensures Value(s + [Digit(d)], radix) == radix.Shift(Value(s, radix), d)
  {
    var t := s + [Digit(d)];
    assert t[..|t| - 1] == s;
  }

  lemma {:induction false} ValueOfDigits(n: nat, radix: Radix)
    ensures Value(Digits(n, radix), radix) == n
  {
    var q, r := radix.Quotient(n), radix.Remainder(n);
    if q == 0 {
      ValueAppend([], r, radix);
      assert Digits(n, radix) == [] + [Digit(r)];
    } else {
      ValueOfDigits(q, radix);
      ValueAppend(Digits(q, radix), r, radix);
    }
  }

  /** `strconv.Itoa` and the `%d` verb. */
  function Itoa(n: int): (s: string)
    ensures |s| > 0
  {
    if n < 0 then "-" + Digits(-n, Decimal) else Digits(n, Decimal)
  }

  /** Decimal, digit by digit. */
  lemma ItoaDigits(n: int)
    ensures 0 <= n < 10 ==> Itoa(n) == ["0123456789"[n]]
    ensures n >= 10 ==> Itoa(n) == Itoa(n / 10) + ["0123456789"[n % 10]]
    ensures n < 0 ==> Itoa(n) == "-" + Itoa(-n)
  {
  }

  predicate Signed(s: string) {
    s != [] && (s[0] == '-' || s[0] == '+')
  }

  /** `strconv.ParseInt(s, 10, 64)`: optional sign, digits, 64-bit range. */
  function ParseInt(s: string): (r: Option<int>)
    ensures r.Some? ==> InInt64(r.value)
  {
    var digits := if Signed(s) then s[1..] else s;
    if digits == [] || !Decimal.AllDigits(digits) then None
    else
      var magnitude: int := Value(digits, Decimal);
      var n := if s[0] == '-' then 0 - magnitude else magnitude;
      if InInt64(n) then Some(n) else None
  }

  lemma ParseItoa(n: int)
    requires InInt64(n)
    ensures ParseInt(Itoa(n)) == Some(n)
  {
    var magnitude := if n < 0 then -n else n;
    var digits := Digits(magnitude, Decimal);
    ValueOfDigits(magnitude, Decimal);
    assert Decimal.IsDigit(digits[0]);
    if n < 0 {
      assert Itoa(n)[1..] == digits;
    }
  }

  /** A text that ends in something else than a digit is no number. */
  lemma ParseIntNeedsDigits(s: string)
    requires s != [] && !Decimal.IsDigit(s[|s| - 1])
    ensures ParseInt(s) == None
  {
    var digits := if Signed(s) then s[1..] else s;
    if digits != [] {
      assert digits[|digits| - 1] == s[|s| - 1];
    }
  }

  lemma ItoaInjective(m: nat, n: nat)
    requires Itoa(m) == Itoa(n)
    ensures m == n
  {
    ValueOfDigits(m, Decimal);
    ValueOfDigits(n, Decimal);
  }
}
