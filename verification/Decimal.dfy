/** Unsigned decimal numbers as text: the printer behind `{}` formatting and netstring
    headers, the reader behind `ParseIntegerTo`, and the laws connecting them. */
module Decimal {
  import opened Base

  predicate IsDigit(c: char) {
    '0' <= c <= '9'
  }

  predicate AllDigits(s: string) {
    forall i :: 0 <= i < |s| ==> IsDigit(s[i])
  }

  function DigitChar(d: nat): char
    requires d < 10
  {
    '0' + d as char
  }

  function DigitValue(c: char): nat
    requires IsDigit(c)
  {
    c as int - '0' as int
  }

  function ToText(n: nat): (s: string)
    ensures s != ""
    ensures AllDigits(s)
    ensures n > 0 ==> s[0] != '0'
  {
    if n < 10 then [DigitChar(n)] else ToText(n / 10) + [DigitChar(n % 10)]
  }

  function Value(s: string): nat
    requires AllDigits(s)
  {
    if s == "" then 0 else 10 * Value(s[..|s| - 1]) + DigitValue(s[|s| - 1])
  }

  /** Reads a whole string as an unsigned 64-bit decimal; anything else is refused. */
  function ParseSize(s: string): Option<nat> {
    if s == "" || !AllDigits(s) || Value(s) > SIZE_MAX then None else Some(Value(s))
  }

  lemma {:induction false} ValueOfText(n: nat)
    ensures Value(ToText(n)) == n
  {
    if n >= 10 {
      ValueOfText(n / 10);
      var s := ToText(n);
      assert s[..|s| - 1] == ToText(n / 10);
    }
  }

  /** A digit string without leading zero is the one the printer produces. */
  lemma {:induction false} TextOfValue(s: string)
    requires s != "" && AllDigits(s) && s[0] != '0'
    ensures Value(s) > 0
    ensures ToText(Value(s)) == s
  {
    var front, last := s[..|s| - 1], DigitValue(s[|s| - 1]);
    if front == "" {
      assert Value(front) == 0;
      assert s == [DigitChar(last)];
    } else {
      TextOfValue(front);
      assert Value(s) / 10 == Value(front) && Value(s) % 10 == last;
      assert DigitChar(last) == s[|s| - 1];
    }
  }

  /** The value by positions: each digit counts for its power of ten. */
  function Positional(s: string): nat
    requires AllDigits(s)
  {
    if s == "" then 0 else (s[0] as int - 48) * Pow10(|s| - 1) + Positional(s[1..])
  }

  lemma {:induction false} PositionalSnoc(s: string, c: char)
    requires AllDigits(s) && IsDigit(c)
    ensures AllDigits(s + [c]) && Positional(s + [c]) == 10 * Positional(s) + (c as int - 48)
  {
    var t := s + [c];
    if s == "" {
      assert t[1..] == "";
    } else {
      assert t[1..] == s[1..] + [c];
      PositionalSnoc(s[1..], c);
      TenTimes(s[0] as int - 48, |s| - 1);
    }
  }

  lemma TenTimes(d: nat, k: nat)
    ensures d * Pow10(k + 1) == 10 * (d * Pow10(k))
  {
    var p := Pow10(k);
    assert d * (10 * p) == 10 * (d * p);
  }

  lemma {:induction false} ValueIsPositional(s: string)
    requires AllDigits(s)
    ensures Value(s) == Positional(s)
  {
    if s != "" {
      var n := |s| - 1;
      ValueIsPositional(s[..n]);
      PositionalSnoc(s[..n], s[n]);
      assert s[..n] + [s[n]] == s;
    }
  }

  function Zeros(n: nat): string {
    seq(n, _ => '0')
  }

  lemma {:induction false} ZeroValue(s: string)
    requires AllDigits(s)
    ensures Value(s) == 0 <==> s == Zeros(|s|)
  {
    if s != "" {
      var front := s[..|s| - 1];
      ZeroValue(front);
      assert s == front + [s[|s| - 1]];
      assert Zeros(|s|) == Zeros(|front|) + ['0'];
    }
  }

  /** A number below 10^k prints with at most k digits. */
  lemma {:induction false} TextLength(n: nat, k: nat)
    requires k > 0 && n < Pow10(k)
    ensures |ToText(n)| <= k
  {
    if n >= 10 {
      TextLength(n / 10, k - 1);
    }
  }

  function Pow10(k: nat): nat {
    if k == 0 then 1 else 10 * Pow10(k - 1)
  }

  /** How many digits `s` starts with. */
  function DigitRun(s: string): nat {
    if s == "" || !IsDigit(s[0]) then 0 else 1 + DigitRun(s[1..])
  }

  lemma {:induction false} RunOfDigits(digits: string, rest: string)
    requires AllDigits(digits) && rest != "" && !IsDigit(rest[0])
    ensures DigitRun(digits + rest) == |digits|
  {
    if digits == "" {
      assert digits + rest == rest;
    } else {
      RunOfDigits(digits[1..], rest);
      assert (digits + rest)[1..] == digits[1..] + rest;
    }
  }
}
