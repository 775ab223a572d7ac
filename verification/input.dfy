/** Posted-form validation: `validateAndSanitizeInput` (includes/auth_check.php:32-52)
    together with the PHP primitives it rests on: `empty`, `trim`, and the
    `FILTER_VALIDATE_INT` / `FILTER_VALIDATE_FLOAT` filters. A posted value is a
    string; a field the form did not send is the empty string. */
module Input {
  import opened Base

  /** The whitespace `FILTER_VALIDATE_INT` and `FILTER_VALIDATE_FLOAT` skip around a
      number: space, tab, newline, carriage return and vertical tab. */
  predicate IsFilterSpace(c: char) {
    c == ' ' || c == '\t' || c == '\n' || c == '\r' || c == '\U{B}'
  }

  /** The characters PHP's `trim` strips by default: the filters' whitespace and NUL. */
  predicate IsSpace(c: char) {
    Strips(c, true)
  }

  /** The characters a trim strips: `trim`'s set, or the filters' set without NUL. */
  predicate Strips(c: char, withNul: bool) {
    IsFilterSpace(c) || (withNul && c == '\0')
  }

  /** s without its leading stripped characters. */
  function TrimLeft(s: string, withNul: bool): (r: string)
    ensures |r| <= |s| && r == s[|s| - |r|..]
    ensures |r| > 0 ==> !Strips(r[0], withNul)
    ensures forall i :: 0 <= i < |s| - |r| ==> Strips(s[i], withNul)
  {
    if |s| > 0 && Strips(s[0], withNul) then TrimLeft(s[1..], withNul) else s
  }

  /** s without its trailing stripped characters. */
  function TrimRight(s: string, withNul: bool): (r: string)
    ensures |r| <= |s| && r == s[..|r|]
    ensures |r| > 0 ==> !Strips(r[|r| - 1], withNul)
    ensures forall i :: |r| <= i < |s| ==> Strips(s[i], withNul)
  {
    if |s| > 0 && Strips(s[|s| - 1], withNul) then TrimRight(s[..|s| - 1], withNul) else s
  }

  /** PHP `trim`. */
  function Trim(s: string): string {
    TrimRight(TrimLeft(s, true), true)
  }

  /** The trimming the numeric filters do before they parse: NUL is kept. */
  function FilterTrim(s: string): string {
    TrimRight(TrimLeft(s, false), false)
  }

  /** PHP `empty` on a string: true for "" and for "0". */
  predicate IsEmpty(s: string) {
    s == "" || s == "0"
  }

  /** A required field is refused when it is empty in PHP's sense or only whitespace. */
  predicate IsBlank(s: string) {
    IsEmpty(s) || Trim(s) == ""
  }

  predicate IsDigit(c: char) {
    '0' <= c <= '9'
  }

  predicate AllDigits(s: string) {
    forall i :: 0 <= i < |s| ==> IsDigit(s[i])
  }

  function DigitValue(c: char): (r: nat)
    requires IsDigit(c)
    ensures r < 10
  {
    (c as int) - ('0' as int)
  }

  /** The number a string of decimal digits denotes, most significant first. */
  function DigitsValue(s: string): (r: nat)
    requires AllDigits(s)
  {
    if |s| == 0 then 0 else 10 * DigitsValue(s[..|s| - 1]) + DigitValue(s[|s| - 1])
  }

  /** The value of the digits after a decimal point. */
  function FractionValue(s: string): (r: real)
    requires AllDigits(s)
    ensures 0.0 <= r <= 1.0
  {
    if |s| == 0 then 0.0 else (DigitValue(s[0]) as real + FractionValue(s[1..])) / 10.0
  }

  /** PHP's integer range on a 64-bit build. */
  const IntMin: int := -0x8000_0000_0000_0000
  const IntMax: int := 0x7FFF_FFFF_FFFF_FFFF

  /** The digits FILTER_VALIDATE_INT accepts after the sign: "0" or a nonzero-led run. */
  predicate CanonicalDigits(s: string) {
    |s| > 0 && AllDigits(s) && (s[0] != '0' || |s| == 1)
  }

  /** A leading sign, if any, and the rest. */
  function SplitSign(t: string): (bool, string) {
    if |t| > 0 && t[0] == '-' then (true, t[1..])
    else if |t| > 0 && t[0] == '+' then (false, t[1..])
    else (false, t)
  }

  /** `filter_var($s, FILTER_VALIDATE_INT)`: surrounding whitespace is ignored, an optional
      sign is followed by canonical digits, and the value must fit PHP's integer. */
  function ParseInt(s: string): (r: Option<int>)
    ensures r.Some? ==> IntMin <= r.value <= IntMax
  {
    var split := SplitSign(FilterTrim(s));
    var neg := split.0;
    var body := split.1;
    if !CanonicalDigits(body) then None
    else
      var d: int := DigitsValue(body);
      var v := if neg then -d else d;
      if IntMin <= v <= IntMax then Some(v) else None
  }

  /** Position of the first '.', or |s| when there is none. */
  function DotIndex(s: string): (k: nat)
    ensures k <= |s|
    ensures forall i :: 0 <= i < k ==> s[i] != '.'
    ensures k < |s| ==> s[k] == '.'
  {
    if |s| == 0 then 0 else if s[0] == '.' then 0 else 1 + DotIndex(s[1..])
  }

  /** Digits with at most one decimal point and at least one digit, unsigned. */
  function ParseUnsigned(body: string): Option<real> {
    var k := DotIndex(body);
    var whole := body[..k];
    var frac := if k < |body| then body[k + 1..] else "";
    if |body| == 0 || !AllDigits(whole) || !AllDigits(frac) || |whole| + |frac| == 0 then None
    else Some(DigitsValue(whole) as real + FractionValue(frac))
  }

  /** `filter_var($s, FILTER_VALIDATE_FLOAT)` for plain decimal notation: optional sign,
      digits with at most one decimal point, at least one digit. */
  function ParseDecimal(s: string): Option<real> {
    var split := SplitSign(FilterTrim(s));
    match ParseUnsigned(split.1)
    case None => None
    case Some(v) => Some(if split.0 then -v else v)
  }

  /** The `$type` argument. */
  datatype FieldType = StringField | IntField | FloatField

  /** What `validateAndSanitizeInput` returns: PHP `false`, or a value of the requested type. */
  datatype Validated = Refused | Text(text: string) | Whole(whole: int) | Decimal(decimal: real)

  /** `validateAndSanitizeInput($data, $required, $type)`. */
  function Validate(data: string, required: bool, t: FieldType): (r: Validated)
    ensures required && IsBlank(data) ==> r == Refused
    ensures t == StringField ==> (r == Refused <==> required && IsBlank(data))
    ensures t == StringField ==> r == Refused || r == Text(data)
    ensures t == IntField ==> !r.Text? && !r.Decimal?
    ensures t == FloatField ==> !r.Text? && !r.Whole?
    ensures t == IntField && !(required && IsBlank(data)) ==>
      (r == Refused <==> ParseInt(data).None?) && (r.Whole? ==> r.whole == ParseInt(data).value)
    ensures t == FloatField && !(required && IsBlank(data)) ==>
      (r == Refused <==> ParseDecimal(data).None?) && (r.Decimal? ==> r.decimal == ParseDecimal(data).value)
  {
    if required && IsBlank(data) then Refused
    else
      match t
      case IntField => (match ParseInt(data) case Some(n) => Whole(n) case None => Refused)
      case FloatField => (match ParseDecimal(data) case Some(x) => Decimal(x) case None => Refused)
      case StringField => Text(data)
  }

  /** PHP truthiness of a validated value: `false`, 0, 0.0, "" and "0" are falsy. */
  predicate Truthy(v: Validated) {
    match v
    case Refused => false
    case Text(s) => !IsEmpty(s)
    case Whole(n) => n != 0
    case Decimal(x) => x != 0.0
  }

  /** `validateAndSanitizeInput(..., 'int') ?: 0`. */
  function WholeOrZero(v: Validated): (r: int)
    ensures r != 0 ==> v == Whole(r)
  {
    if v.Whole? then v.whole else 0
  }

  /** `validateAndSanitizeInput(..., 'float') ?: 0`. */
  function DecimalOrZero(v: Validated): (r: real)
    ensures r != 0.0 ==> v == Decimal(r)
  {
    if v.Decimal? then v.decimal else 0.0
  }

  /** The validated text, or "" for `false`. */
  function TextOrEmpty(v: Validated): string {
    if v.Text? then v.text else ""
  }

  // ---------------------------------------------------------------------------
  // Properties

  /** A required integer field is accepted exactly when it is not blank and parses. */
  lemma ValidateRequiredInt(data: string)
    ensures Validate(data, true, IntField).Whole? <==> !IsBlank(data) && ParseInt(data).Some?
    ensures Validate(data, true, IntField).Whole? ==> Validate(data, true, IntField).whole == ParseInt(data).value
  {
  }

  /** A required text field is truthy exactly when it is not blank: a blank one is
      refused, and a non-blank one is neither "" nor "0". */
  lemma RequiredTextTruthy(data: string)
    ensures Truthy(Validate(data, true, StringField)) <==> !IsBlank(data)
  {
  }

  /** Because PHP's `empty("0")` holds, a required "0" is refused whatever the field type,
      so a stock count of zero never gets through a required field. */
  lemma RequiredZeroRefused(t: FieldType)
    ensures Validate("0", true, t) == Refused
  {
  }

  // ---------------------------------------------------------------------------
  // Rendering an integer in decimal, and the round trip through FILTER_VALIDATE_INT

  function DigitChar(d: nat): (c: char)
    requires d < 10
    ensures IsDigit(c) && DigitValue(c) == d
  {
    (d + '0' as int) as char
  }

  /** Decimal digits of n without leading zeros. */
  function ShowNat(n: nat): (s: string)
    ensures CanonicalDigits(s)
  {
    if n < 10 then [DigitChar(n)] else ShowNat(n / 10) + [DigitChar(n % 10)]
  }

  /** How PHP prints an integer. */
  function ShowInt(n: int): string {
    if n < 0 then "-" + ShowNat(-n) else ShowNat(n)
  }

  lemma {:induction false} ShowNatValue(n: nat)
    ensures DigitsValue(ShowNat(n)) == n
  {
    if n >= 10 {
      var s := ShowNat(n);
      assert s[..|s| - 1] == ShowNat(n / 10);
      ShowNatValue(n / 10);
    }
  }

  lemma TrimNoSpace(s: string)
    requires forall i :: 0 <= i < |s| ==> !IsSpace(s[i])
    ensures Trim(s) == s && FilterTrim(s) == s
  {
  }

  /** The filters do not skip NUL as `trim` does: a NUL before the digits is refused. */
  lemma NulNotSkipped(d: string)
    requires CanonicalDigits(d)
    ensures ParseInt("\0" + d).None?
  {
    var s := "\0" + d;
    assert s[|s| - 1] == d[|d| - 1];
    NulHeadKept(s);
    TrimmedRefused(s);
  }

  /** A leading NUL survives the filters' trimming when the text ends in a kept character. */
  lemma NulHeadKept(s: string)
    requires |s| > 0 && s[0] == '\0' && !Strips(s[|s| - 1], false)
    ensures |FilterTrim(s)| > 0 && FilterTrim(s)[0] == '\0'
  {
    assert TrimLeft(s, false) == s;
  }

  /** Trimmed text that is empty or starts with NUL carries no sign and is neither integer
      nor decimal. */
  lemma NulHeadRefused(u: string)
    requires u == "" || u[0] == '\0'
    ensures SplitSign(u) == (false, u) && !CanonicalDigits(u) && ParseUnsigned(u).None?
  {
    if |u| > 0 {
      var k := DotIndex(u);
      assert k >= 1;
      assert u[..k][0] == u[0];
    }
  }

  /** Text whose trimmed form is refused as a body is refused by both filters. */
  lemma TrimmedRefused(s: string)
    requires FilterTrim(s) == "" || FilterTrim(s)[0] == '\0'
    ensures ParseInt(s).None? && ParseDecimal(s).None?
  {
    NulHeadRefused(FilterTrim(s));
  }

  /** What `trim` empties, the filters' trimming empties or leaves starting with NUL. */
  lemma BlankHead(s: string)
    requires Trim(s) == ""
    ensures FilterTrim(s) == "" || FilterTrim(s)[0] == '\0'
  {
    var l := TrimLeft(s, true);
    assert |l| == 0;
    var fl := TrimLeft(s, false);
    var u := FilterTrim(s);
    if |u| > 0 {
      assert u[0] == fl[0] == s[|s| - |fl|];
    }
  }

  /** Text that `trim` empties holds no number: the filters refuse it too, NUL included. */
  lemma BlankNotNumber(s: string)
    requires Trim(s) == ""
    ensures ParseInt(s).None? && ParseDecimal(s).None?
  {
    BlankHead(s);
    TrimmedRefused(s);
  }

  /** Digits, a point and digits parse to their value. */
  lemma ParseDecimalPlain(w: string, f: string)
    requires AllDigits(w) && AllDigits(f) && |w| > 0
    ensures ParseDecimal(w + "." + f) == Some(DigitsValue(w) as real + FractionValue(f))
  {
    PlainUnsigned(w, f);
    UnsignedPlain(w, f);
    ParseWithoutSign(w + "." + f);
  }

  lemma ParseWithoutSign(s: string)
    requires SplitSign(FilterTrim(s)) == (false, s)
    ensures ParseDecimal(s) == ParseUnsigned(s)
  {
  }

  lemma UnsignedPlain(w: string, f: string)
    requires AllDigits(w) && AllDigits(f) && |w| > 0
    ensures ParseUnsigned(w + "." + f) == Some(DigitsValue(w) as real + FractionValue(f))
  {
    var s := w + "." + f;
    PlainDot(w, f);
    assert s[..|w|] == w;
    assert s[|w| + 1..] == f;
  }

  lemma PlainUnsigned(w: string, f: string)
    requires AllDigits(w) && AllDigits(f) && |w| > 0
    ensures Trim(w + "." + f) == w + "." + f && FilterTrim(w + "." + f) == w + "." + f
    ensures SplitSign(FilterTrim(w + "." + f)) == (false, w + "." + f)
  {
    var s := w + "." + f;
    forall i | 0 <= i < |s| ensures !IsSpace(s[i]) {
      if i < |w| { assert s[i] == w[i]; }
      else if i > |w| { assert s[i] == f[i - |w| - 1]; }
    }
    TrimNoSpace(s);
    assert s[0] == w[0];
  }

  /** Digits, a point and digits are never blank. */
  lemma PlainNotBlank(w: string, f: string)
    requires AllDigits(w) && AllDigits(f) && |w| > 0
    ensures !IsBlank(w + "." + f)
  {
    PlainUnsigned(w, f);
    assert |w + "." + f| >= 2;
  }

  lemma PlainDot(w: string, f: string)
    requires AllDigits(w) && |w| > 0
    ensures DotIndex(w + "." + f) == |w|
  {
    var s := w + "." + f;
    assert s[|w|] == '.';
    assert forall i :: 0 <= i < |w| ==> s[i] == w[i];
  }

  /** Every integer PHP can hold, printed and posted back, validates to itself. */
  lemma ParseShowInt(n: int)
    requires IntMin <= n <= IntMax
    ensures ParseInt(ShowInt(n)) == Some(n)
  {
    var s := ShowInt(n);
    ShowIntUntrimmed(n);
    ShowNatValue(if n < 0 then -n else n);
    if n < 0 {
      assert SplitSign(s) == (true, ShowNat(-n));
    } else {
      assert SplitSign(s) == (false, ShowNat(n));
    }
  }

  /** A printed integer carries no whitespace for the filter to trim. */
  lemma ShowIntUntrimmed(n: int)
    ensures FilterTrim(ShowInt(n)) == ShowInt(n)
  {
    var s := ShowInt(n);
    var d := ShowNat(if n < 0 then -n else n);
    assert forall i :: 0 <= i < |d| ==> IsDigit(d[i]);
    forall i | 0 <= i < |s| ensures !IsSpace(s[i]) {
      if n < 0 && i > 0 { assert s[i] == d[i - 1]; }
    }
    TrimNoSpace(s);
  }
}
