/** Go's strconv.Atoi (base 10, 64-bit int) and its inverse strconv.Itoa. */
module Strconv {
  import opened Wrappers

  const MinInt: int := -0x8000_0000_0000_0000
  const MaxInt: int := 0x7FFF_FFFF_FFFF_FFFF

  predicate IsDigit(c: char) { '0' <= c <= '9' }

  predicate AllDigits(s: string) { forall i :: 0 <= i < |s| ==> IsDigit(s[i]) }

  function DigitChar(d: nat): (c: char)
    requires d < 10
    ensures IsDigit(c) && c as int - '0' as int == d
  {
    ('0' as int + d) as char
  }

  /** The value of a string of decimal digits, most significant digit first. */
  function DigitsValue(s: string): nat
    requires AllDigits(s)
  {
    if s == [] then 0 else DigitsValue(s[..|s| - 1]) * 10 + (s[|s| - 1] as int - '0' as int)
  }

  /** A prefix of a string of digits is worth no more than the whole string. */
  lemma {:induction false} DigitsPrefix(s: string, m: nat)
    requires AllDigits(s) && m <= |s|
    ensures AllDigits(s[..m]) && DigitsValue(s[..m]) <= DigitsValue(s)
    decreases |s|
  {
    if m < |s| {
      var init := s[..|s| - 1];
      assert init[..m] == s[..m];
      DigitsPrefix(init, m);
    } else {
      assert s[..m] == s;
    }
  }

  /** The shortest decimal spelling of `n`, as strconv.Itoa writes it for n >= 0. */
  function NatToDecimal(n: nat): (s: string)
    ensures |s| >= 1 && AllDigits(s)
    ensures DigitsValue(s) == n
  {
    if n < 10 then [DigitChar(n)]
    else
      var init := NatToDecimal(n / 10);
      var s := init + [DigitChar(n % 10)];
      assert s[..|s| - 1] == init;
      s
  }

  /** strconv.Itoa: a leading '-' for negative values, then the digits. */
  function Itoa(n: int): (s: string)
    ensures |s| >= 1
    ensures (s[0] == '-') == (n < 0)
    ensures AllDigits(if n < 0 then s[1..] else s)
  {
    if n < 0 then "-" + NatToDecimal(-n) else NatToDecimal(n)
  }

  /** The digits after an optional leading '+' or '-'. */
  function Unsigned(s: string): string
  {
    if |s| > 0 && (s[0] == '+' || s[0] == '-') then s[1..] else s
  }

  /**
   * strconv.Atoi: an optional sign followed by at least one decimal digit, whose value
   * fits in a 64-bit int. Anything else is an error (None): the empty string, a lone
   * sign, any other character, and values out of range.
   */
  function Atoi(s: string): (r: Option<int>)
    ensures r.Some? ==> MinInt <= r.value <= MaxInt
    ensures r.Some? ==> Unsigned(s) != [] && AllDigits(Unsigned(s))
    ensures r.Some? ==> (r.value < 0 ==> s[0] == '-')
  {
    var digits := Unsigned(s);
    if digits == [] || !AllDigits(digits) then None
    else
      var magnitude: int := DigitsValue(digits);
      var n := if s[0] == '-' then -magnitude else magnitude;
      if MinInt <= n <= MaxInt then Some(n) else None
  }

  /** Atoi reads back what Itoa writes, for every 64-bit int. */
  lemma AtoiItoa(n: int)
    requires MinInt <= n <= MaxInt
    ensures Atoi(Itoa(n)) == Some(n)
  {
    if n < 0 {
      var s := Itoa(n);
      assert s[1..] == NatToDecimal(-n);
      assert Unsigned(s) == NatToDecimal(-n);
    } else {
      var s := NatToDecimal(n);
      assert IsDigit(s[0]);
      assert Unsigned(s) == s;
    }
  }

  /**
   * Atoi on every spelling: an optional sign and a non-empty run of digits, leading
   * zeros allowed, is the signed value of the digits when that fits in 64 bits, and an
   * error when it does not.
   */
  lemma AtoiSignedDigits(sign: string, digits: string)
    requires sign == "" || sign == "+" || sign == "-"
    requires digits != [] && AllDigits(digits)
    ensures var v := if sign == "-" then -(DigitsValue(digits) as int) else DigitsValue(digits) as int;
      Atoi(sign + digits) == if MinInt <= v <= MaxInt then Some(v) else None
  {
    var s := sign + digits;
    if sign == "" {
      assert s == digits;
      assert IsDigit(s[0]);
      assert Unsigned(s) == digits;
    } else {
      assert s[0] == sign[0];
      assert s[1..] == digits;
      assert Unsigned(s) == digits;
    }
  }
}
