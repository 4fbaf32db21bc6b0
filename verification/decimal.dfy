/**
 Decimal rendering of natural numbers, as Rust's `{}` and `to_string` print an
 unsigned integer (and an integer-valued `f64`): the shortest digit string,
 no sign, no leading zero, no decimal point. The parser `ParseNat` is its
 inverse and serves as the independent reading of what a rendered cell says.
 */
module Decimal {
  import opened Wrappers

  predicate IsDigit(c: char) {
    '0' <= c <= '9'
  }

  predicate AllDigits(s: string) {
    forall i :: 0 <= i < |s| ==> IsDigit(s[i])
  }

  /** A digit string as `NatToString` writes it: non-empty, no leading zero. */
  predicate Canonical(s: string) {
    && |s| > 0
    && AllDigits(s)
    && (s[0] == '0' ==> |s| == 1)
  }

  function DigitValue(c: char): (d: nat)
    requires IsDigit(c)
    ensures d < 10
  {
    c as int - '0' as int
  }

  function DigitChar(d: nat): (c: char)
    requires d < 10
    ensures IsDigit(c)
    ensures DigitValue(c) == d
  {
    ('0' as int + d) as char
  }

  lemma DigitCharOfValue(c: char)
    requires IsDigit(c)
    ensures DigitChar(DigitValue(c)) == c
  {
  }

  /** The decimal digits of `n`, most significant first. */
  function NatToString(n: nat): (s: string)
    ensures Canonical(s)
    ensures s[0] == '0' <==> n == 0
    decreases n
  {
    if n < 10 then [DigitChar(n)] else NatToString(n / 10) + [DigitChar(n % 10)]
  }

  /** The number a digit string denotes, read most significant digit first. */
  function DigitsValue(s: string): nat
    requires AllDigits(s)
    decreases |s|
  {
    if |s| == 0 then 0 else DigitsValue(s[..|s| - 1]) * 10 + DigitValue(s[|s| - 1])
  }

  /** Reads a digit string as `NatToString` writes it; anything else,
      including a leading zero, is rejected. */
  function ParseNat(s: string): (r: Option<nat>)
    ensures r.Some? <==> Canonical(s)
  {
    if Canonical(s) then Some(DigitsValue(s)) else None
  }

  /** Reading back a rendered number gives the number. */
  lemma {:induction false} DigitsValueOfNatToString(n: nat)
    ensures DigitsValue(NatToString(n)) == n
    decreases n
  {
    if n >= 10 {
      var s := NatToString(n);
      DigitsValueOfNatToString(n / 10);
      assert s[..|s| - 1] == NatToString(n / 10);
    }
  }

  lemma ParseNatOfNatToString(n: nat)
    ensures ParseNat(NatToString(n)) == Some(n)
  {
    DigitsValueOfNatToString(n);
  }

  /** Rendering the value of a canonical digit string gives the string back,
      so `NatToString` is a bijection onto the canonical digit strings. */
  lemma {:induction false} NatToStringOfDigitsValue(s: string)
    requires Canonical(s)
    ensures NatToString(DigitsValue(s)) == s
    decreases |s|
  {
    if |s| == 1 {
      DigitCharOfValue(s[0]);
      assert s[..0] == [];
    } else {
      var init := s[..|s| - 1];
      var last := s[|s| - 1];
      assert Canonical(init) by {
        assert init[0] == s[0];
        assert forall i :: 0 <= i < |init| ==> init[i] == s[i];
      }
      NatToStringOfDigitsValue(init);
      var v := DigitsValue(init);
      assert v != 0 by {
        assert init[0] == s[0];
      }
      var n := DigitsValue(s);
      assert n == v * 10 + DigitValue(last);
      assert n / 10 == v && n % 10 == DigitValue(last);
      DigitCharOfValue(last);
      assert NatToString(n) == NatToString(v) + [DigitChar(DigitValue(last))];
      assert s == init + [last];
    }
  }

  /** A string `ParseNat` accepts is the rendering of what it reads, so the
      parser is injective and pins the text exactly. */
  lemma ParseNatExact(s: string)
    requires ParseNat(s).Some?
    ensures NatToString(ParseNat(s).value) == s
  {
    NatToStringOfDigitsValue(s);
  }
}
