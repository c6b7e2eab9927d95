/**
 * Ticket codes (codes.py): a random number in 0..999999 written as six
 * zero-padded decimal digits, redrawn until no ticket has it.
 */
module Codes {
  import opened Wrappers
  import opened Decimal
  import opened Schema

  const CodeLength: nat := 6

  /** A value `random.randint(0, 999999)` can return (both bounds included). */
  type Draw = n: int | 0 <= n <= 999999

  /** `f"{n:06d}"`: the decimal digits of `n`, left-padded with zeros to six characters. */
  function FormatCode(n: Draw): string
  {
    ZeroPad(DecimalString(n), CodeLength)
  }

  /**
   * A code is six decimal digits that read back as the drawn number, and it
   * starts with a padding zero exactly when the number is below 100000.
   */
  lemma FormatCodeShape(n: Draw)
    ensures |FormatCode(n)| == CodeLength && AllDigits(FormatCode(n))
    ensures DecimalValue(FormatCode(n)) == n
    ensures FormatCode(n)[0] == '0' <==> n < 100000
  {
    var s := DecimalString(n);
    DecimalStringLength(n, 6);
    ZerosPrefixValue(6 - |s|, s);
    DecimalValueOfString(n);
    if n >= 100000 {
      DecimalStringLengthBelow(n, 5);
    } else {
      DecimalStringLength(n, 5);
    }
  }

  /** Reads a ticket code back as the number it was made from; `None` if it is not six digits. */
  function ParseCode(s: string): (r: Option<Draw>)
  {
    if |s| == CodeLength && AllDigits(s) then Some(DecimalValue(s)) else None
  }

  /** Every code parses back to the number it was drawn from. */
  lemma ParseFormat(n: Draw)
    ensures ParseCode(FormatCode(n)) == Some(n)
  {
    FormatCodeShape(n);
  }

  /** Every six-digit string is the code of exactly the number it reads as. */
  lemma FormatParse(s: string)
    requires ParseCode(s).Some?
    ensures FormatCode(ParseCode(s).value) == s
  {
    var n := DecimalValue(s);
    PaddedRenderingOfValue(s);
    if n >= 100000 {
      DecimalStringLengthBelow(n, 5);
    }
    assert DecimalString(n) == DecimalString(ParseCode(s).value);
  }

  /** Different draws give different codes. */
  lemma FormatInjective(m: Draw, n: Draw)
    requires FormatCode(m) == FormatCode(n)
    ensures m == n
  {
    ParseFormat(m);
    ParseFormat(n);
  }

  /** Some draw in the sequence hits a code no row has yet, so the loop in `GenerateCode` ends. */
  predicate HasFreeDraw(rows: seq<Ticket>, draws: seq<Draw>)
  {
    exists k :: 0 <= k < |draws| && !HasCode(rows, FormatCode(draws[k]))
  }

  /**
   * `generate_code()`: `draws` are the successive values of `random.randint`.
   * Each candidate that some row already has is discarded; the first one that
   * no row has is returned, after `attempts` draws. The table is only read.
   */
  method GenerateCode(rows: seq<Ticket>, draws: seq<Draw>) returns (code: string, attempts: nat)
    requires HasFreeDraw(rows, draws)
    ensures 1 <= attempts <= |draws| && code == FormatCode(draws[attempts - 1])
    ensures |code| == CodeLength && AllDigits(code) && ParseCode(code) == Some(draws[attempts - 1])
    ensures !HasCode(rows, code)
    ensures forall j :: 0 <= j < attempts - 1 ==> HasCode(rows, FormatCode(draws[j]))
  {
    ghost var k :| 0 <= k < |draws| && !HasCode(rows, FormatCode(draws[k]));
    var i := 0;
    code := FormatCode(draws[0]);
    while HasCode(rows, code)
      invariant i <= k && code == FormatCode(draws[i])
      invariant forall j :: 0 <= j < i ==> HasCode(rows, FormatCode(draws[j]))
      decreases k - i
    {
      i := i + 1;
      code := FormatCode(draws[i]);
    }
    attempts := i + 1;
    ParseFormat(draws[i]);
  }
}
