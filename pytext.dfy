/**
 * The few Python built-ins the handlers apply to request data: `str()` of a
 * JSON value, `str.strip()`, and `int()` of a query-string argument.
 */
module PyText {
  import opened Wrappers
  import opened Decimal

  /** A scalar JSON value as `request.get_json()` decodes it. */
  datatype JsonValue = JNull | JBool(b: bool) | JInt(i: int) | JString(s: string)

  /** Python's `str.isspace()` for one character. */
  predicate IsSpace(c: char)
  {
    || c == ' '
    || '\t' <= c <= '\r'
    || '\U{1c}' <= c <= '\U{1f}'
    || c == '\U{85}' || c == '\U{a0}' || c == '\U{1680}'
    || '\U{2000}' <= c <= '\U{200a}'
    || c == '\U{2028}' || c == '\U{2029}' || c == '\U{202f}' || c == '\U{205f}' || c == '\U{3000}'
  }

  /** `s.lstrip()`: the suffix of `s` left after its leading whitespace. */
  function StripLeft(s: string): (r: string)
    ensures |r| <= |s| && r == s[|s| - |r|..]
    ensures r == [] || !IsSpace(r[0])
    ensures forall i :: 0 <= i < |s| - |r| ==> IsSpace(s[i])
  {
    if s != [] && IsSpace(s[0]) then StripLeft(s[1..]) else s
  }

  /** `s.rstrip()`: the prefix of `s` left after its trailing whitespace. */
  function StripRight(s: string): (r: string)
    ensures |r| <= |s| && r == s[..|r|]
    ensures r == [] || !IsSpace(r[|r| - 1])
    ensures forall i :: |r| <= i < |s| ==> IsSpace(s[i])
  {
    if s != [] && IsSpace(s[|s| - 1]) then StripRight(s[..|s| - 1]) else s
  }

  /** `s.strip()` */
  function Strip(s: string): string
  {
    StripRight(StripLeft(s))
  }

  /** `strip()` yields the empty string exactly when every character is whitespace. */
  lemma StripBlank(s: string)
    ensures Strip(s) == [] <==> forall i :: 0 <= i < |s| ==> IsSpace(s[i])
  {
  }

  /** `strip()` keeps a string that neither starts nor ends with whitespace. */
  lemma StripUnpadded(s: string)
    requires s == [] || (!IsSpace(s[0]) && !IsSpace(s[|s| - 1]))
    ensures Strip(s) == s
  {
  }

  /** `s[i..j]` is surrounded in `s` by whitespace only. */
  predicate SpaceAround(s: string, i: int, j: int)
  {
    && 0 <= i <= j <= |s|
    && (forall k :: 0 <= k < i ==> IsSpace(s[k]))
    && (forall k :: j <= k < |s| ==> IsSpace(s[k]))
  }

  /** The slice `strip()` keeps, and the whitespace it drops on each side. */
  lemma StripBounds(s: string) returns (i: nat, j: nat)
    ensures SpaceAround(s, i, j) && Strip(s) == s[i..j]
  {
    var l := StripLeft(s);
    var r := StripRight(l);
    i := |s| - |l|;
    j := i + |r|;
    PrefixOfSuffix(s, i, |r|);
    assert r == l[..|r|];
  }

  /** The first `m` characters of `s[i..]` are `s[i..i + m]`, and the rest of `s[i..]` is the rest of `s`. */
  lemma PrefixOfSuffix(s: string, i: nat, m: nat)
    requires i + m <= |s|
    ensures s[i..][..m] == s[i..i + m]
    ensures forall k :: i + m <= k < |s| ==> s[k] == s[i..][k - i]
  {
  }

  /**
   * What `strip()` keeps is a contiguous piece of the input with no whitespace
   * at either end, and everything it drops around that piece is whitespace.
   */
  lemma StripIsTrimmedSlice(s: string)
    ensures exists i, j :: SpaceAround(s, i, j) && Strip(s) == s[i..j]
    ensures Strip(s) == [] || (!IsSpace(Strip(s)[0]) && !IsSpace(Strip(s)[|Strip(s)| - 1]))
  {
    var i, j := StripBounds(s);
    var l := StripLeft(s);
    if StripRight(l) != [] {
      assert StripRight(l)[0] == l[0];
    }
  }

  /**
   * CPython's default cap on the decimal digits of an int that `int()` reads
   * and `str()` writes (`sys.int_info.default_max_str_digits`); past it both
   * raise `ValueError`.
   */
  const MaxStrDigits: nat := 4300

  /** `str(i)` does not raise: `i` has at most 4300 decimal digits, sign not counted. */
  predicate WithinStrDigits(i: int)
  {
    |DecimalString(if i < 0 then -i else i)| <= MaxStrDigits
  }

  /** Python's `str()` of an int. */
  function IntToString(i: int): string
  {
    if i < 0 then "-" + DecimalString(-i) else DecimalString(i)
  }

  /** Python's `str()` of a decoded JSON scalar: `str(None)` is "None", `str(True)` is "True". */
  function PyStr(v: JsonValue): string
  {
    match v
    case JNull => "None"
    case JBool(b) => if b then "True" else "False"
    case JInt(i) => IntToString(i)
    case JString(s) => s
  }

  /** Digits separated by single underscores, as Python's `int()` accepts them. */
  predicate WellGrouped(t: string)
  {
    && |t| >= 1
    && IsDigit(t[0]) && IsDigit(t[|t| - 1])
    && (forall i :: 0 <= i < |t| ==> IsDigit(t[i]) || t[i] == '_')
    && (forall i :: 0 <= i < |t| - 1 ==> t[i] == '_' ==> t[i + 1] != '_')
  }

  function DropUnderscores(t: string): (r: string)
    requires forall i :: 0 <= i < |t| ==> IsDigit(t[i]) || t[i] == '_'
    ensures AllDigits(r)
  {
    if t == [] then []
    else (if t[0] == '_' then [] else [t[0]]) + DropUnderscores(t[1..])
  }

  lemma {:induction false} DropUnderscoresOfDigits(t: string)
    requires AllDigits(t)
    ensures DropUnderscores(t) == t
  {
    if t != [] {
      DropUnderscoresOfDigits(t[1..]);
    }
  }

  /** The digits of `int()`'s input after its sign; too many digits raise like a malformed string. */
  function ParseUnsigned(t: string): Option<nat>
  {
    if WellGrouped(t) && |DropUnderscores(t)| <= MaxStrDigits then Some(DecimalValue(DropUnderscores(t))) else None
  }

  /**
   * The ASCII separators FS, GS, RS and US: `str.isspace()` counts them as
   * whitespace, but `int()` skips only the other whitespace characters.
   */
  predicate IsSeparator(c: char)
  {
    '\U{1c}' <= c <= '\U{1f}'
  }

  /**
   * Python's `int(s)` for a base-10 string: surrounding whitespace other than
   * the four separators, an optional sign, then at most 4300 digits grouped by
   * single underscores; `None` where Python raises `ValueError`. A separator can
   * be neither skipped nor read as part of the number, so any one refuses `s`.
   */
  function ParseInt(s: string): Option<int>
  {
    if HasSeparator(s) then None else ParseSigned(Strip(s))
  }

  predicate HasSeparator(s: string)
  {
    exists i :: 0 <= i < |s| && IsSeparator(s[i])
  }

  /** An optional sign, then the digits. */
  function ParseSigned(t: string): Option<int>
  {
    if t != [] && (t[0] == '-' || t[0] == '+') then
      match ParseUnsigned(t[1..])
      case None => None
      case Some(n) => var m: int := n; Some(if t[0] == '-' then -m else m)
    else
      match ParseUnsigned(t)
      case None => None
      case Some(n) => Some(n)
  }

  lemma UnsignedRoundTrip(n: nat)
    requires |DecimalString(n)| <= MaxStrDigits
    ensures ParseUnsigned(DecimalString(n)) == Some(n)
  {
    var d := DecimalString(n);
    DecimalValueOfString(n);
    DropUnderscoresOfDigits(d);
    assert WellGrouped(d);
  }

  /** `str(i)` holds no separator: only digits and a sign. */
  lemma NoSeparatorInIntString(i: int)
    ensures !HasSeparator(IntToString(i))
  {
    var s := IntToString(i);
    assert forall k :: 0 <= k < |s| ==> s[k] == '-' || IsDigit(s[k]);
  }

  /** `int(str(i)) == i` for every int that `str()` accepts. */
  lemma IntRoundTrip(i: int)
    requires WithinStrDigits(i)
    ensures ParseInt(IntToString(i)) == Some(i)
  {
    NoSeparatorInIntString(i);
    IntStringUnpadded(i);
    SignedRoundTrip(i);
  }

  /** `str(i)` has no surrounding whitespace, so `strip()` keeps it. */
  lemma IntStringUnpadded(i: int)
    ensures Strip(IntToString(i)) == IntToString(i)
  {
    var s := IntToString(i);
    assert !IsSpace(s[0]) && !IsSpace(s[|s| - 1]);
    StripUnpadded(s);
  }

  lemma SignedRoundTrip(i: int)
    requires WithinStrDigits(i)
    ensures ParseSigned(IntToString(i)) == Some(i)
  {
    var s := IntToString(i);
    if i < 0 {
      assert s[1..] == DecimalString(-i);
      UnsignedRoundTrip(-i);
    } else {
      UnsignedRoundTrip(i);
    }
  }

  /** More than 4300 plain digits are refused. */
  lemma LongDigitsNotUnsigned(d: string)
    requires AllDigits(d) && |d| > MaxStrDigits
    ensures ParseUnsigned(d) == None
  {
    DropUnderscoresOfDigits(d);
  }

  /** The decimal writing of an int with more than 4300 digits is refused by `int()`. */
  lemma LongIntIsNotInt(i: int)
    requires !WithinStrDigits(i)
    ensures ParseInt(IntToString(i)) == None
  {
    IntStringUnpadded(i);
    LongSignedNotInt(i);
  }

  lemma LongSignedNotInt(i: int)
    requires !WithinStrDigits(i)
    ensures ParseSigned(IntToString(i)) == None
  {
    var s := IntToString(i);
    var d := DecimalString(if i < 0 then -i else i);
    LongDigitsNotUnsigned(d);
    if i < 0 {
      assert s[0] == '-' && s[1..] == d;
    } else {
      assert s == d && IsDigit(s[0]);
    }
  }

  /** `int()` refuses a string holding a separator, even one `strip()` would remove. */
  lemma SeparatorIsNotInt(s: string, i: nat)
    requires i < |s| && IsSeparator(s[i])
    ensures ParseInt(s) == None
    ensures Strip([s[i]]) == []
  {
  }

  /** A blank string is not an integer: `int("")` raises. */
  lemma BlankIsNotInt(s: string)
    requires forall i :: 0 <= i < |s| ==> IsSpace(s[i])
    ensures ParseInt(s) == None
  {
    StripBlank(s);
  }
}
