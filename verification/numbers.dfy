/** The two text-to-number conversions the mesh parser relies on:
    `std::stoul` (used for face indices, then narrowed to `uint32_t`) and
    `std::stof` (used for coordinates). `stoul` is modelled digit by digit;
    of `stof` only whether a conversion happens is modelled, and the accepted
    text stands for the float. */
module Numbers {
  import opened Wrappers

  /** `unsigned long` is 64 bits wide on the targeted platforms. */
  const ULongRange: nat := 0x1_0000_0000_0000_0000
  /** Face indices are stored as `uint32_t`. */
  const UInt32Range: nat := 0x1_0000_0000

  /** Why a conversion failed: `std::invalid_argument` when nothing could be
      converted, `std::out_of_range` when the value does not fit. */
  datatype ConversionError = NoConversion(text: string) | OutOfRange(text: string)

  /** The C `isspace` characters. */
  predicate IsSpace(c: char) {
    c == ' ' || c == '\t' || c == '\n' || c == '\r' || c == '\U{B}' || c == '\U{C}'
  }

  predicate IsDigit(c: char) {
    '0' <= c <= '9'
  }

  predicate AllDigits(s: string) {
    forall i :: 0 <= i < |s| ==> IsDigit(s[i])
  }

  function DigitValue(c: char): nat
    requires IsDigit(c)
  {
    (c as int - '0' as int) as nat
  }

  function DigitChar(n: nat): (c: char)
    requires n < 10
    ensures IsDigit(c) && DigitValue(c) == n
  {
    ('0' as int + n) as char
  }

  /** `s` without its leading white space. */
  function SkipSpace(s: string): (r: string)
    ensures |r| <= |s| && r == s[|s| - |r|..]
    ensures |r| > 0 ==> !IsSpace(r[0])
  {
    if |s| > 0 && IsSpace(s[0]) then SkipSpace(s[1..]) else s
  }

  /** Length of the run of digits that starts `s`. */
  function DigitRun(s: string): (n: nat)
    ensures n <= |s| && AllDigits(s[..n])
    ensures n < |s| ==> !IsDigit(s[n])
  {
    if |s| > 0 && IsDigit(s[0]) then
      var k := DigitRun(s[1..]);
      assert s[..k + 1] == [s[0]] + s[1..][..k];
      1 + k
    else 0
  }

  /** The value of a string of decimal digits. */
  function DecimalValue(ds: string): nat
    requires AllDigits(ds)
  {
    if |ds| == 0 then 0
    else DecimalValue(ds[..|ds| - 1]) * 10 + DigitValue(ds[|ds| - 1])
  }

  /** The decimal spelling of `n`, without leading zeros. */
  function ShowNat(n: nat): (s: string)
    ensures |s| > 0 && AllDigits(s)
  {
    if n < 10 then [DigitChar(n)] else ShowNat(n / 10) + [DigitChar(n % 10)]
  }

  /** `t` without the one optional sign that may start it. */
  function Unsigned(t: string): (u: string)
    ensures |u| <= |t| && u == t[|t| - |u|..]
  {
    if |t| > 0 && (t[0] == '+' || t[0] == '-') then t[1..] else t
  }

  /** After white space and one optional sign, `s` starts with a digit. */
  predicate StartsWithDigit(s: string) {
    var u := Unsigned(SkipSpace(s));
    |u| > 0 && IsDigit(u[0])
  }

  /** `std::stoul(s)` in base 10: leading white space is skipped, one optional
      sign is read, then the longest run of digits; the rest of the text is
      ignored. No digit at all is `invalid_argument`; a magnitude beyond
      `ULONG_MAX` is `out_of_range`; a minus sign negates modulo 2^64. */
  function ParseULong(s: string): (r: Result<nat, ConversionError>)
    ensures r.Ok? ==> r.value < ULongRange
    ensures r.Err? ==> r.error.text == s
    ensures (r.Err? && r.error.NoConversion?) <==> !StartsWithDigit(s)
  {
    var t := SkipSpace(s);
    var u := Unsigned(t);
    var n := DigitRun(u);
    if n == 0 then Err(NoConversion(s))
    else Narrow(s, DecimalValue(u[..n]), |t| > 0 && t[0] == '-')
  }

  /** The converted magnitude `v` of `s`: `out_of_range` beyond `ULONG_MAX`,
      otherwise `v`, negated modulo 2^64 after a minus sign. */
  function Narrow(s: string, v: nat, negative: bool): (r: Result<nat, ConversionError>)
    ensures r.Ok? <==> v < ULongRange
    ensures r.Ok? ==> r.value < ULongRange
    ensures r.Err? ==> r.error == OutOfRange(s)
  {
    if v >= ULongRange then Err(OutOfRange(s))
    else if negative then Ok(Negate(v))
    else Ok(v)
  }

  /** Unsigned negation modulo 2^64, as `strtoul` applies it after a minus
      sign. */
  function Negate(v: nat): (r: nat)
    requires v < ULongRange
    ensures r < ULongRange
    ensures (r + v) % ULongRange == 0
  {
    if v == 0 then 0 else ULongRange - v
  }

  /** `static_cast<uint32_t>(std::stoul(s))`: the conversion, narrowed to
      32 bits. */
  function ParseIndex(s: string): (r: Result<nat, ConversionError>)
    ensures r.Ok? ==> r.value < UInt32Range
    ensures r.Ok? <==> ParseULong(s).Ok?
    ensures r.Ok? ==> r.value == ParseULong(s).value % UInt32Range
  {
    var v :- ParseULong(s);
    Ok(v % UInt32Range)
  }

  /** `s` starts with `lower` up to the case of each letter (`upper` is the
      same word in capitals). */
  predicate StartsWithWord(s: string, lower: string, upper: string)
    requires |lower| == |upper|
  {
    |s| >= |lower| && forall i :: 0 <= i < |lower| ==> s[i] == lower[i] || s[i] == upper[i]
  }

  /** Whether `std::stof(s)` converts anything: after white space and an
      optional sign there must be a digit, a point followed by a digit, or
      the words `inf` / `nan` in any case. */
  predicate FloatConverts(s: string) {
    var t := SkipSpace(s);
    var u := if |t| > 0 && (t[0] == '+' || t[0] == '-') then t[1..] else t;
    || (|u| > 0 && IsDigit(u[0]))
    || (|u| > 1 && u[0] == '.' && IsDigit(u[1]))
    || StartsWithWord(u, "inf", "INF")
    || StartsWithWord(u, "nan", "NAN")
  }

  /** A coordinate read by `std::stof`; the accepted text stands for the
      float value. */
  datatype Scalar = Scalar(text: string)

  /** `std::stof(s)`: the scalar, or `invalid_argument` when nothing converts. */
  function ParseFloat(s: string): (r: Result<Scalar, ConversionError>)
    ensures r.Ok? <==> FloatConverts(s)
    ensures r.Ok? ==> r.value.text == s
    ensures r.Err? ==> r.error == NoConversion(s)
  {
    if FloatConverts(s) then Ok(Scalar(s)) else Err(NoConversion(s))
  }

  // ---------------------------------------------------------------------------
  // Proofs

  lemma {:induction false} ShowNatValue(n: nat)
    ensures DecimalValue(ShowNat(n)) == n
  {
    if n >= 10 {
      var s := ShowNat(n);
      assert s[..|s| - 1] == ShowNat(n / 10);
      ShowNatValue(n / 10);
    }
  }

  lemma DigitsNotSpaceOrSign(s: string)
    requires |s| > 0 && AllDigits(s)
    ensures SkipSpace(s) == s
    ensures s[0] != '+' && s[0] != '-'
  {
    assert IsDigit(s[0]) && !IsSpace(s[0]);
  }

  lemma {:induction false} DigitRunAll(s: string)
    requires AllDigits(s)
    ensures DigitRun(s) == |s|
    decreases |s|
  {
    if |s| > 0 {
      DigitRunAll(s[1..]);
    }
  }

  /** A plain string of digits converts to its decimal value. */
  lemma ParseULongDigits(s: string)
    requires |s| > 0 && AllDigits(s)
    requires DecimalValue(s) < ULongRange
    ensures ParseULong(s) == Ok(DecimalValue(s))
  {
    DigitsNotSpaceOrSign(s);
    DigitRunAll(s);
    assert s[..|s|] == s;
  }

  /** Reading back the decimal spelling of an index gives the index. */
  lemma ParseIndexShowNat(n: nat)
    requires n < UInt32Range
    ensures ParseIndex(ShowNat(n)) == Ok(n)
  {
    var s := ShowNat(n);
    ShowNatValue(n);
    ParseULongDigits(s);
    NarrowSmall(s, n);
  }

  lemma NarrowSmall(s: string, n: nat)
    requires n < UInt32Range
    requires ParseULong(s) == Ok(n)
    ensures ParseIndex(s) == Ok(n)
  {
  }

  /** `stoul` accepts a leading minus sign and wraps: "-1" reads as
      `ULONG_MAX`, whose low 32 bits are 0xFFFFFFFF. */
  lemma NegativeIndexWraps()
    ensures ParseULong("-1") == Ok(ULongRange - 1)
    ensures ParseIndex("-1") == Ok(UInt32Range - 1)
  {
    var s := "-1";
    assert SkipSpace(s) == s;
    var u := s[1..];
    assert u == "1";
    DigitRunAll(u);
    assert u[..1] == "1";
    assert DecimalValue("1") == 1 by {
      assert "1"[..0] == "";
    }
  }

  /** Digits followed by other text convert as far as the digits go. */
  lemma TrailingTextIgnored()
    ensures ParseULong("12abc") == Ok(12)
  {
    var s := "12abc";
    assert SkipSpace(s) == s && Unsigned(s) == s;
    assert s[0] == '1' && s[1] == '2' && s[2] == 'a';
    assert DigitRun(s[2..]) == 0;
    assert DigitRun(s[1..]) == 1;
    assert DigitRun(s) == 2;
    assert s[..2] == "12" && "12"[..1] == "1" && "1"[..0] == "";
    assert DecimalValue("12") == 12;
  }

  /** An empty or non-numeric text is `invalid_argument` for both conversions. */
  lemma EmptyRejected()
    ensures ParseULong("") == Err(NoConversion(""))
  {
    assert SkipSpace("") == "";
    assert DigitRun("") == 0;
  }

  lemma NonNumericRejected()
    ensures ParseULong("x") == Err(NoConversion("x"))
  {
    assert SkipSpace("x") == "x";
    assert DigitRun("x") == 0;
  }

  lemma NoDigitsNoFloat()
    ensures !FloatConverts("") && !FloatConverts("x")
  {
    assert !IsSpace('x') && !IsDigit('x');
    assert SkipSpace("x") == "x";
    assert SkipSpace("") == "";
    assert !StartsWithWord("x", "inf", "INF") && !StartsWithWord("x", "nan", "NAN");
  }
}
