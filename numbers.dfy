/**
 * The part of Python's `int()` and `float()` that metadata values use:
 * surrounding ASCII white space, an optional sign, decimal digits and, for
 * `float()`, an optional fraction. Values are exact (`int`, `real`).
 */
module Numbers {
  import opened Results
  import opened Strings

  predicate IsDigit(c: char) {
    '0' <= c <= '9'
  }

  /**
   * The ASCII characters `str.isspace()` accepts: space, tab to carriage
   * return (9 to 13), and the separators 28 to 31.
   */
  predicate IsSpace(c: char) {
    c == ' ' || '\t' <= c <= '\r' || '\U{1c}' <= c <= '\U{1f}'
  }

  function DigitValue(c: char): nat
    requires IsDigit(c)
  {
    (c as int) - ('0' as int)
  }

  function DigitChar(d: nat): (c: char)
    requires d < 10
    ensures IsDigit(c) && DigitValue(c) == d
  {
    ('0' as int + d) as char
  }

  /** The value of a run of digits, most significant first (0 for the empty run); None if a character is not a digit. */
  function DigitsValue(s: string): Option<nat>
  {
    if s == [] then Some(0)
    else if !IsDigit(s[|s| - 1]) then None
    else match DigitsValue(s[..|s| - 1])
      case None => None
      case Some(v) => Some(10 * v + DigitValue(s[|s| - 1]))
  }

  function Pow10(n: nat): (r: nat)
    ensures r >= 1
  {
    if n == 0 then 1 else 10 * Pow10(n - 1)
  }

  function StripLeft(s: string): string
  {
    if s != [] && IsSpace(s[0]) then StripLeft(s[1..]) else s
  }

  function StripRight(s: string): string
  {
    if s != [] && IsSpace(s[|s| - 1]) then StripRight(s[..|s| - 1]) else s
  }

  /** `s.strip()` on ASCII white space. */
  function Strip(s: string): string
  {
    StripRight(StripLeft(s))
  }

  /** The text after an optional leading sign. */
  function Unsigned(t: string): string
  {
    if |t| > 0 && (t[0] == '-' || t[0] == '+') then t[1..] else t
  }

  predicate Negative(t: string) {
    |t| > 0 && t[0] == '-'
  }

  /** `int(s)`: None where Python raises ValueError. */
  function ParseInt(s: string): (r: Option<int>)
    ensures Strip(s) == [] ==> r.None?
    ensures r.Some? && r.value < 0 ==> Negative(Strip(s))
  {
    var t := Strip(s);
    var b := Unsigned(t);
    if b == [] then None
    else match DigitsValue(b)
      case None => None
      case Some(v) => var n: int := v; Some(if Negative(t) then -n else n)
  }

  /** An unsigned decimal number with an optional fraction: `12`, `12.5`, `12.`, `.5`. */
  function UnsignedReal(b: string): (r: Option<real>)
    ensures b == [] ==> r.None?
    ensures r.Some? ==> r.value >= 0.0
  {
    var parts := Split(b, '.');
    if |parts| == 1 then
      if b == [] then None
      else match DigitsValue(b)
        case None => None
        case Some(v) => Some(v as real)
    else if |parts| == 2 && |parts[0]| + |parts[1]| > 0 then
      match (DigitsValue(parts[0]), DigitsValue(parts[1]))
      case (Some(i), Some(f)) => Some(i as real + f as real / Pow10(|parts[1]|) as real)
      case _ => None
    else None
  }

  /** `float(s)`: None where Python raises ValueError. */
  function ParseReal(s: string): (r: Option<real>)
    ensures Strip(s) == [] ==> r.None?
    ensures r.Some? && r.value < 0.0 ==> Negative(Strip(s))
  {
    var t := Strip(s);
    match UnsignedReal(Unsigned(t))
    case None => None
    case Some(v) => Some(if Negative(t) then -v else v)
  }

  /** Decimal digits of a natural number, without leading zeros. */
  function FormatNat(n: nat): (s: string)
    ensures |s| > 0
  {
    if n < 10 then [DigitChar(n)] else FormatNat(n / 10) + [DigitChar(n % 10)]
  }

  /** `str(n)` for an integer. */
  function FormatInt(n: int): (s: string)
    ensures |s| > 0
  {
    if n < 0 then "-" + FormatNat(-n) else FormatNat(n)
  }

  /** `str(n)` of a natural number is digits only. */
  lemma {:induction false} FormatNatDigits(n: nat)
    ensures forall i :: 0 <= i < |FormatNat(n)| ==> IsDigit(FormatNat(n)[i])
  {
    if n >= 10 {
      FormatNatDigits(n / 10);
      var s := FormatNat(n);
      assert forall i :: 0 <= i < |s| - 1 ==> s[i] == FormatNat(n / 10)[i];
    }
  }

  /** `str(n)` of an integer is digits, after a `-` for a negative one. */
  lemma FormatIntChars(n: int)
    ensures var s := FormatInt(n);
      (IsDigit(s[0]) || (n < 0 && s[0] == '-')) &&
      forall i :: 1 <= i < |s| ==> IsDigit(s[i])
  {
    var m: nat := if n < 0 then -n else n;
    FormatNatDigits(m);
    if n < 0 {
      assert forall i :: 1 <= i < |FormatInt(n)| ==> FormatInt(n)[i] == FormatNat(m)[i - 1];
    }
  }

  /** No character other than a digit or `-` occurs in `str(n)`. */
  lemma FormatIntAvoids(n: int, c: char)
    requires c != '-' && !IsDigit(c)
    ensures c !in FormatInt(n)
  {
    FormatIntChars(n);
    var s := FormatInt(n);
    forall i | 0 <= i < |s| ensures s[i] != c { }
  }

  lemma {:induction false} FormatNatValue(n: nat)
    ensures DigitsValue(FormatNat(n)) == Some(n)
  {
    if n >= 10 {
      var s := FormatNat(n);
      FormatNatValue(n / 10);
      assert s[..|s| - 1] == FormatNat(n / 10);
    }
  }

  /** A run of digits holds digits only, so no `.`. */
  lemma {:induction false} DigitsOnly(s: string)
    requires DigitsValue(s).Some?
    ensures forall i :: 0 <= i < |s| ==> IsDigit(s[i])
  {
    if s != [] {
      DigitsOnly(s[..|s| - 1]);
      assert forall i :: 0 <= i < |s| - 1 ==> s[..|s| - 1][i] == s[i];
    }
  }

  /** `int(str(n)) == n`. */
  lemma {:induction false} ParseIntFormat(n: int)
    ensures ParseInt(FormatInt(n)) == Some(n)
  {
    var s := FormatInt(n);
    FormatIntChars(n);
    assert !IsSpace(s[|s| - 1]);
    assert Strip(s) == s;
    if n < 0 {
      assert Unsigned(s) == FormatNat(-n);
      FormatNatValue(-n);
    } else {
      FormatNatValue(n);
    }
  }

  /** Every text `int()` accepts, `float()` accepts with the same value. */
  lemma IntParsesAsReal(s: string)
    requires ParseInt(s).Some?
    ensures ParseReal(s) == Some(ParseInt(s).value as real)
  {
    var b := Unsigned(Strip(s));
    DigitsOnly(b);
    assert '.' !in b by {
      forall i | 0 <= i < |b| ensures b[i] != '.' { }
    }
    SplitNoSeparator(b, '.');
  }

  /** `float(str(n)) == n` for an integer `n`. */
  lemma ParseRealFormat(n: int)
    ensures ParseReal(FormatInt(n)) == Some(n as real)
  {
    ParseIntFormat(n);
    IntParsesAsReal(FormatInt(n));
  }
}
