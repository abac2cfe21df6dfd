/** Decimal numerals as the service uses them in file names: `std::to_string` to
    print an id and `std::stoi` to read one back. */
module Decimal {
  datatype Option<+T> = None | Some(value: T)

  predicate IsDigit(c: char) {
    '0' <= c <= '9'
  }

  function DigitChar(d: nat): (c: char)
    requires d < 10
    ensures IsDigit(c) && DigitValue(c) == d
  {
    "0123456789"[d]
  }

  function DigitValue(c: char): (d: nat)
    requires IsDigit(c)
    ensures d < 10
  {
    (c as int) - ('0' as int)
  }

  /** The numeral of a natural number, without leading zeros. */
  function NatToString(n: nat): (s: string)
    ensures s != [] && forall i :: 0 <= i < |s| ==> IsDigit(s[i])
  {
    if n < 10 then [DigitChar(n)] else NatToString(n / 10) + [DigitChar(n % 10)]
  }

  /** `std::to_string(int)`. */
  function ToString(n: int): (s: string)
    ensures s != []
  {
    if n < 0 then ['-'] + NatToString(-n) else NatToString(n)
  }

  predicate IsSpace(c: char) {
    c == ' ' || c == '\t' || c == '\n' || c == '\r' || c as int == 11 || c as int == 12
  }

  function SkipSpaces(s: string): string {
    if s != [] && IsSpace(s[0]) then SkipSpaces(s[1..]) else s
  }

  /** The longest prefix of digits. */
  function DigitPrefix(s: string): string {
    if s != [] && IsDigit(s[0]) then [s[0]] + DigitPrefix(s[1..]) else []
  }

  /** The value of a sequence of digits. */
  function DigitsValue(s: string): int {
    if s == [] then 0 else
      10 * DigitsValue(s[..|s| - 1]) + if IsDigit(s[|s| - 1]) then DigitValue(s[|s| - 1]) else 0
  }

  predicate HasSign(t: string) {
    t != [] && (t[0] == '+' || t[0] == '-')
  }

  /** An optional sign, then as many digits as there are. */
  function Numeral(t: string): Option<int> {
    var digits := DigitPrefix(if HasSign(t) then t[1..] else t);
    if digits == [] then None
    else Some(if t[0] == '-' then -DigitsValue(digits) else DigitsValue(digits))
  }

  /** `std::stoi`: white space, then a numeral, then anything. `None` stands for the exception thrown
      when there is no digit. */
  function Stoi(s: string): Option<int> {
    Numeral(SkipSpaces(s))
  }

  lemma {:induction false} DigitPrefixOfDigits(s: string)
    requires forall i :: 0 <= i < |s| ==> IsDigit(s[i])
    ensures DigitPrefix(s) == s
  {
    if s != [] {
      DigitPrefixOfDigits(s[1..]);
    }
  }

  lemma {:induction false} NatRoundTrip(n: nat)
    ensures DigitsValue(NatToString(n)) == n
  {
    var s := NatToString(n);
    if n < 10 {
      assert s[..0] == [];
    } else {
      NatRoundTrip(n / 10);
      assert s[..|s| - 1] == NatToString(n / 10);
    }
  }

  predicate AllDigits(s: string) {
    forall i :: 0 <= i < |s| ==> IsDigit(s[i])
  }

  lemma NumeralOfDigits(digits: string)
    requires digits != [] && AllDigits(digits)
    ensures Numeral(digits) == Some(DigitsValue(digits))
  {
    assert IsDigit(digits[0]) && !HasSign(digits);
    assert DigitPrefix(digits) == digits by { DigitPrefixOfDigits(digits); }
  }

  lemma NumeralOfMinus(digits: string)
    requires digits != [] && AllDigits(digits)
    ensures Numeral(['-'] + digits) == Some(-DigitsValue(digits))
  {
    var t := ['-'] + digits;
    assert t[1..] == digits;
    assert DigitPrefix(t[1..]) == digits by { DigitPrefixOfDigits(digits); }
  }

  /** Reading back a printed id gives the id. */
  lemma RoundTrip(n: int)
    ensures Stoi(ToString(n)) == Some(n)
  {
    var digits := NatToString(if n < 0 then -n else n);
    NatRoundTrip(if n < 0 then -n else n);
    if n < 0 {
      NumeralOfMinus(digits);
    } else {
      NumeralOfDigits(digits);
    }
    NoSpaceFirst(digits);
  }

  lemma NoSpaceFirst(digits: string)
    requires digits != [] && IsDigit(digits[0])
    ensures SkipSpaces(digits) == digits && SkipSpaces(['-'] + digits) == ['-'] + digits
  {
  }

  /** Two ids never share a file name. */
  lemma Injective(m: int, n: int)
    ensures ToString(m) == ToString(n) <==> m == n
  {
    RoundTrip(m);
    RoundTrip(n);
  }

  /** Numerals have no leading zeros: every other sequence of digits is the numeral of its value. */
  lemma {:induction false} Canonical(s: string)
    requires s != [] && AllDigits(s) && (|s| > 1 ==> s[0] != '0')
    ensures NatToString(DigitsNat(s)) == s
  {
    var n := |s| - 1;
    var d := DigitValue(s[n]);
    assert DigitChar(d) == s[n];
    if n == 0 {
      assert DigitsValue(s[..0]) == 0;
      assert s == [s[0]];
    } else {
      Canonical(s[..n]);
      var v := DigitsNat(s[..n]);
      assert NatToString(0) == "0";
      assert v > 0;
      assert DigitsNat(s) == 10 * v + d;
      assert DigitsNat(s) / 10 == v && DigitsNat(s) % 10 == d;
      assert s == s[..n] + [s[n]];
    }
  }

  /** The value of a sequence of digits as a natural number. */
  function DigitsNat(s: string): (n: nat)
    ensures n == DigitsValue(s)
  {
    if s == [] then 0 else 10 * DigitsNat(s[..|s| - 1]) + if IsDigit(s[|s| - 1]) then DigitValue(s[|s| - 1]) else 0
  }

  predicate AllSpaces(s: string) {
    forall i :: 0 <= i < |s| ==> IsSpace(s[i])
  }

  lemma {:induction false} SkipsSpaces(ws: string, t: string)
    requires AllSpaces(ws) && (t != [] ==> !IsSpace(t[0]))
    ensures SkipSpaces(ws + t) == t
  {
    if ws == [] {
      assert ws + t == t;
    } else {
      SkipsSpaces(ws[1..], t);
      assert (ws + t)[1..] == ws[1..] + t;
    }
  }

  lemma {:induction false} TakesDigits(digits: string, rest: string)
    requires AllDigits(digits) && (rest != [] ==> !IsDigit(rest[0]))
    ensures DigitPrefix(digits + rest) == digits
  {
    if digits == [] {
      assert digits + rest == rest;
    } else {
      TakesDigits(digits[1..], rest);
      assert (digits + rest)[1..] == digits[1..] + rest;
      assert digits == [digits[0]] + digits[1..];
    }
  }

  /** White space, a sign if there is one, all the digits that follow, and nothing after them. */
  lemma StoiReads(ws: string, sign: string, digits: string, rest: string)
    requires AllSpaces(ws) && (sign == "" || sign == "+" || sign == "-")
    requires AllDigits(digits) && (rest != [] ==> !IsDigit(rest[0]))
    requires digits == [] && sign == "" && rest != [] ==> !IsSpace(rest[0]) && rest[0] != '+' && rest[0] != '-'
    ensures Stoi(ws + (sign + (digits + rest))) ==
            if digits == [] then None else Some(if sign == "-" then -DigitsValue(digits) else DigitsValue(digits))
  {
    var t := sign + (digits + rest);
    assert t != [] ==> !IsSpace(t[0]);
    SkipsSpaces(ws, t);
    TakesDigits(digits, rest);
    if sign == "" {
      assert t == digits + rest;
    } else {
      assert t[1..] == digits + rest;
    }
  }
}
