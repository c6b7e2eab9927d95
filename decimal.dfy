/** Decimal digit strings: rendering a natural number and reading one back. */
module Decimal {

  function Pow10(k: nat): (p: nat)
    ensures p >= 1
  {
    if k == 0 then 1 else 10 * Pow10(k - 1)
  }

  predicate IsDigit(c: char)
  {
    '0' <= c <= '9'
  }

  predicate AllDigits(s: string)
  {
    forall i :: 0 <= i < |s| ==> IsDigit(s[i])
  }

  function DigitChar(d: nat): char
    requires d < 10
  {
    (48 + d) as char
  }

  function DigitValue(c: char): nat
    requires IsDigit(c)
  {
    c as int - 48
  }

  /** A run of `m` zero characters. */
  function Zeros(m: nat): (z: string)
    ensures |z| == m && AllDigits(z)
  {
    seq(m, _ => '0')
  }

  /**
   * The shortest decimal rendering of `n`, as Python's `str(n)` writes a
   * non-negative int: at least one digit, and no leading zero unless `n` is 0.
   */
  function DecimalString(n: nat): (s: string)
    ensures 1 <= |s| && AllDigits(s)
    ensures s[0] == '0' ==> n == 0
    ensures n == 0 ==> s == "0"
  {
    if n < 10 then [DigitChar(n)] else DecimalString(n / 10) + [DigitChar(n % 10)]
  }

  /** The value of a string of decimal digits (the empty string reads as 0). */
  function DecimalValue(s: string): (v: nat)
    requires AllDigits(s)
    ensures v < Pow10(|s|)
  {
    if s == [] then 0 else 10 * DecimalValue(s[..|s| - 1]) + DigitValue(s[|s| - 1])
  }

  /** Left-pads `s` with zeros to at least `width` characters, as the format spec `0<width>d` does. */
  function ZeroPad(s: string, width: nat): string
  {
    if |s| >= width then s else Zeros(width - |s|) + s
  }

  /** Reading back what `DecimalString` wrote gives the number. */
  lemma {:induction false} DecimalValueOfString(n: nat)
    ensures DecimalValue(DecimalString(n)) == n
  {
    if n >= 10 {
      var s := DecimalString(n);
      assert s[..|s| - 1] == DecimalString(n / 10);
      DecimalValueOfString(n / 10);
    }
  }

  /** A number below 10^k is written with at most k digits. */
  lemma {:induction false} DecimalStringLength(n: nat, k: nat)
    requires 1 <= k && n < Pow10(k)
    ensures |DecimalString(n)| <= k
  {
    if n >= 10 {
      assert k >= 2;
      assert n / 10 < Pow10(k - 1);
      DecimalStringLength(n / 10, k - 1);
    }
  }

  /** A number of at least 10^k needs more than k digits. */
  lemma {:induction false} DecimalStringLengthBelow(n: nat, k: nat)
    requires Pow10(k) <= n
    ensures |DecimalString(n)| > k
  {
    if k > 0 {
      assert n >= 10;
      assert Pow10(k - 1) <= n / 10;
      DecimalStringLengthBelow(n / 10, k - 1);
    }
  }

  /** Leading zeros do not change the value of a digit string. */
  lemma {:induction false} ZerosPrefixValue(m: nat, s: string)
    requires AllDigits(s)
    ensures DecimalValue(Zeros(m) + s) == DecimalValue(s)
    decreases |s|, m
  {
    if s == [] {
      assert Zeros(m) + s == Zeros(m);
      if m > 0 {
        assert Zeros(m)[..m - 1] == Zeros(m - 1) + [];
        ZerosPrefixValue(m - 1, []);
      }
    } else {
      var t := Zeros(m) + s;
      assert t[..|t| - 1] == Zeros(m) + s[..|s| - 1];
      ZerosPrefixValue(m, s[..|s| - 1]);
    }
  }

  /**
   * A digit string is exactly the rendering of its own value, padded back to
   * its own width: the canonical rendering is the only one that reads as that value.
   */
  lemma {:induction false} PaddedRenderingOfValue(s: string)
    requires 1 <= |s| && AllDigits(s)
    ensures ZeroPad(DecimalString(DecimalValue(s)), |s|) == s
    decreases |s|
  {
    var init, c := s[..|s| - 1], s[|s| - 1];
    var d := DigitValue(c);
    assert DigitChar(d) == c;
    var v := DecimalValue(s);
    if init == [] {
      assert s == [c];
    } else {
      var w := DecimalValue(init);
      assert v == 10 * w + d;
      PaddedRenderingOfValue(init);
      if w == 0 {
        assert DecimalString(v) == [c];
        assert init == Zeros(|init| - 1) + "0" == Zeros(|init|);
        assert s == init + [c];
      } else {
        assert v / 10 == w && v % 10 == d;
        assert DecimalString(v) == DecimalString(w) + [c];
        DecimalStringLength(w, |init|);
        assert s == init + [c];
      }
    }
  }
}
