/**
  The few `java.lang.String`, `Long`, `Integer` and `Boolean` operations the
  resolver relies on, over `seq<char>`.  Case mapping, white space and
  decimal digits are those of the ASCII range.
*/
module JavaText {
  import opened Wrappers

  const LongMin: int := -0x8000_0000_0000_0000
  const LongMax: int := 0x7FFF_FFFF_FFFF_FFFF
  const IntMin: int := -0x8000_0000
  const IntMax: int := 0x7FFF_FFFF

  predicate IsDigit(c: char) { '0' <= c <= '9' }

  predicate AllDigits(s: string) { forall i :: 0 <= i < |s| ==> IsDigit(s[i]) }

  function DigitValue(c: char): (d: nat)
    requires IsDigit(c)
    ensures d < 10
  {
    (c as int) - ('0' as int)
  }

  function DigitChar(d: nat): (c: char)
    requires d < 10
    ensures IsDigit(c) && DigitValue(c) == d
  {
    ('0' as int + d) as char
  }

  /** The value of a string of decimal digits, most significant digit first. */
  function DigitsValue(s: string): nat
    requires AllDigits(s)
  {
    if s == [] then 0 else DigitsValue(s[..|s| - 1]) * 10 + DigitValue(s[|s| - 1])
  }

  /**
    The grammar `Long.parseLong` and `Integer.parseInt` share: an optional
    sign followed by at least one decimal digit.  No range check here.
  */
  function ParseDecimal(s: string): (r: Option<int>)
    ensures r.Some? <==> (|s| > 0 && ((s[0] == '-' || s[0] == '+') ==> |s| > 1)
                          && AllDigits(if s[0] == '-' || s[0] == '+' then s[1..] else s))
  {
    if |s| == 0 then None
    else if s[0] == '-' || s[0] == '+' then
      if |s| > 1 && AllDigits(s[1..]) then
        var v: int := DigitsValue(s[1..]);
        Some(if s[0] == '-' then -v else v)
      else None
    else if AllDigits(s) then Some(DigitsValue(s))
    else None
  }

  /** `Long.parseLong`: `None` stands for the `NumberFormatException`. */
  function ParseLong(s: string): (r: Option<int>)
    ensures r.Some? ==> LongMin <= r.value <= LongMax
  {
    match ParseDecimal(s)
    case Some(v) => if LongMin <= v <= LongMax then Some(v) else None
    case None => None
  }

  /** `Integer.parseInt`: `None` stands for the `NumberFormatException`. */
  function ParseInt(s: string): (r: Option<int>)
    ensures r.Some? ==> IntMin <= r.value <= IntMax
  {
    match ParseDecimal(s)
    case Some(v) => if IntMin <= v <= IntMax then Some(v) else None
    case None => None
  }

  /** The decimal digits of a natural number, as `Long.toString` writes them. */
  function Digits(n: nat): (s: string)
    ensures |s| > 0
  {
    if n < 10 then [DigitChar(n)] else Digits(n / 10) + [DigitChar(n % 10)]
  }

  /** `Long.toString(n)`: the way Jackson renders an integral number node. */
  function DecimalString(n: int): (s: string)
  {
    if n < 0 then "-" + Digits(-n) else Digits(n)
  }

  lemma {:induction false} DigitsRoundTrip(n: nat)
    ensures AllDigits(Digits(n)) && DigitsValue(Digits(n)) == n
  {
    var s := Digits(n);
    if n >= 10 {
      DigitsRoundTrip(n / 10);
      assert s[..|s| - 1] == Digits(n / 10);
      assert s[|s| - 1] == DigitChar(n % 10);
    }
  }

  /** `Long.toString(n)` is a `-` for a negative `n` followed by digits, and nothing else. */
  lemma DecimalStringShape(n: int)
    ensures var s := DecimalString(n);
      && s != [] && (s[0] == '-' <==> n < 0)
      && AllDigits(if n < 0 then s[1..] else s)
      && forall i :: 0 <= i < |s| ==> IsDigit(s[i]) || (i == 0 && s[i] == '-')
  {
    var s := DecimalString(n);
    if n < 0 {
      DigitsRoundTrip(-n);
      assert s[1..] == Digits(-n);
      assert forall i :: 1 <= i < |s| ==> s[i] == Digits(-n)[i - 1];
    } else {
      DigitsRoundTrip(n);
    }
  }

  /** The value of a two-digit string. */
  lemma TwoDigits(a: char, b: char)
    requires IsDigit(a) && IsDigit(b)
    ensures DigitsValue([a, b]) == DigitValue(a) * 10 + DigitValue(b)
  {
    assert [a, b][..1] == [a];
    assert [a][..0] == [];
    assert DigitsValue([a]) == DigitValue(a);
  }

  /** Parsing undoes printing: `parseLong(toString(n)) == n` for every long. */
  lemma DecimalRoundTrip(n: int)
    requires LongMin <= n <= LongMax
    ensures ParseDecimal(DecimalString(n)) == Some(n)
    ensures ParseLong(DecimalString(n)) == Some(n)
  {
    var s := DecimalString(n);
    if n < 0 {
      DigitsRoundTrip(-n);
      assert s[1..] == Digits(-n);
    } else {
      DigitsRoundTrip(n);
    }
  }

  predicate IsUpper(c: char) { 'A' <= c <= 'Z' }

  function LowerChar(c: char): char
  {
    if IsUpper(c) then (c as int + 32) as char else c
  }

  /** `String.toLowerCase()` over the ASCII range. */
  function ToLower(s: string): (r: string)
    ensures |r| == |s|
    ensures forall i :: 0 <= i < |s| ==> r[i] == LowerChar(s[i])
  {
    seq(|s|, i requires 0 <= i < |s| => LowerChar(s[i]))
  }

  /** `String.equalsIgnoreCase` over the ASCII range. */
  predicate EqualsIgnoreCase(a: string, b: string)
  {
    ToLower(a) == ToLower(b)
  }

  /** `Character.isWhitespace` over the ASCII range. */
  predicate IsWhitespace(c: char)
  {
    c == ' ' || c == '\t' || c == '\n' || c == '\r' || c == '\U{B}' || c == '\U{C}'
    || ('\U{1C}' <= c <= '\U{1F}')
  }

  /** `StringUtils.isBlank` on a non-null string. */
  predicate IsBlank(s: string)
  {
    forall i :: 0 <= i < |s| ==> IsWhitespace(s[i])
  }

  predicate StartsWith(s: string, prefix: string)
  {
    |prefix| <= |s| && s[..|prefix|] == prefix
  }

  /** `String.lastIndexOf(c)`: -1 when `c` does not occur. */
  function LastIndexOf(s: string, c: char): (r: int)
    ensures -1 <= r < |s|
    ensures r >= 0 ==> s[r] == c
    ensures forall j :: r < j < |s| ==> s[j] != c
  {
    if s == [] then -1
    else if s[|s| - 1] == c then |s| - 1
    else LastIndexOf(s[..|s| - 1], c)
  }

  /** `String.trim()`: leading and trailing characters up to U+0020 removed. */
  function Trim(s: string): (r: string)
    ensures |r| <= |s|
    ensures r != [] ==> r[0] > ' ' && r[|r| - 1] > ' '
  {
    TrimEnd(TrimStart(s))
  }

  function TrimStart(s: string): (r: string)
    ensures |r| <= |s| && r == s[|s| - |r|..]
    ensures r != [] ==> r[0] > ' '
  {
    if s != [] && s[0] <= ' ' then TrimStart(s[1..]) else s
  }

  function TrimEnd(s: string): (r: string)
    ensures |r| <= |s| && r == s[..|r|]
    ensures r != [] ==> r[|r| - 1] > ' '
    ensures s != [] && s[0] > ' ' ==> r != [] && r[0] == s[0]
  {
    if s != [] && s[|s| - 1] <= ' ' then TrimEnd(s[..|s| - 1]) else s
  }

  /** A text with nothing to trim is its own trim. */
  lemma TrimPrintable(s: string)
    requires forall i :: 0 <= i < |s| ==> s[i] > ' '
    ensures Trim(s) == s
  {
    assert TrimStart(s) == s;
    assert TrimEnd(s) == s;
  }

  /** One space on each side of a text with printable ends is trimmed away. */
  lemma TrimPadded(s: string)
    requires s != [] && forall i :: 0 <= i < |s| ==> s[i] > ' '
    ensures Trim(" " + s + " ") == s
  {
    var padded := " " + s + " ";
    assert padded[1..] == s + " ";
    assert TrimStart(s + " ") == s + " ";
    assert (s + " ")[..|s|] == s;
    assert TrimEnd(s) == s;
  }

  /** The first index of a character of `cs` in `s`, or `|s|` when there is none. */
  function IndexOfAny(s: string, cs: set<char>): (r: nat)
    ensures r <= |s|
    ensures r < |s| ==> s[r] in cs
    ensures forall i :: 0 <= i < r ==> s[i] !in cs
  {
    if s == [] then 0
    else if s[0] in cs then 0
    else 1 + IndexOfAny(s[1..], cs)
  }

  function Pow10(n: nat): (r: nat)
    ensures r >= 1
  {
    if n == 0 then 1 else 10 * Pow10(n - 1)
  }

  /**
    A decimal literal `[sign] digits [. digits] [(e|E) [sign] digits]`, with
    at least one mantissa digit, read as `Double.parseDouble` reads it and
    truncated toward zero; `None` for any other text.  The value is the
    exact one, not the nearest double.
  */
  function TruncateDecimal(s: string): (r: Option<int>)
  {
    var neg := s != [] && s[0] == '-';
    var unsigned := if s != [] && (s[0] == '-' || s[0] == '+') then s[1..] else s;
    var e := IndexOfAny(unsigned, {'e', 'E'});
    var mantissa := unsigned[..e];
    var exponent := if e < |unsigned| then ParseDecimal(unsigned[e + 1..]) else Some(0);
    var dot := IndexOfAny(mantissa, {'.'});
    var intPart := mantissa[..dot];
    var fracPart := if dot < |mantissa| then mantissa[dot + 1..] else "";
    if exponent.None? || !AllDigits(intPart) || !AllDigits(fracPart) || |intPart| + |fracPart| == 0 then None
    else
      var digits := DigitsValue(intPart + fracPart);
      var scale := exponent.value - |fracPart|;
      var magnitude := if scale >= 0 then digits * Pow10(scale) else digits / Pow10(-scale);
      Some(if neg then -magnitude else magnitude)
  }

  /** `Boolean.parseBoolean` on a non-null string. */
  predicate ParseBoolean(s: string)
  {
    EqualsIgnoreCase(s, "true")
  }
}
