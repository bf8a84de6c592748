/**
 * Python's `float(str)` over exact reals, for the literals an enrollment count can hold:
 * surrounding whitespace, an optional sign, a decimal mantissa with at most one point,
 * and an optional exponent. Any other string raises `ValueError`.
 */
module FloatParse {
  import opened Common
  import opened Text

  const NotAFloat := "could not convert string to float"

  /** The ASCII characters `str.isspace()` accepts: blank, tab, line feed to carriage return, and the separators 0x1C-0x1F. */
  predicate IsSpace(c: char) {
    c == ' ' || c == '\t' || c == '\n' || c == '\r' || c == '\U{000B}' || c == '\U{000C}' ||
    c == '\U{001C}' || c == '\U{001D}' || c == '\U{001E}' || c == '\U{001F}'
  }

  predicate IsSign(c: char) {
    c == '+' || c == '-'
  }

  predicate IsExponentMarker(c: char) {
    c == 'e' || c == 'E'
  }

  /** Every character that can occur in a string `float` accepts. */
  predicate IsFloatChar(c: char) {
    IsDigit(c) || IsSpace(c) || IsSign(c) || IsExponentMarker(c) || c == '.'
  }

  predicate HasDigit(s: string) {
    exists i :: 0 <= i < |s| && IsDigit(s[i])
  }

  function TrimStart(s: string): string {
    if |s| > 0 && IsSpace(s[0]) then TrimStart(s[1..]) else s
  }

  function TrimEnd(s: string): string {
    if |s| > 0 && IsSpace(s[|s| - 1]) then TrimEnd(s[..|s| - 1]) else s
  }

  /** Python's `str.strip()` restricted to ASCII whitespace. */
  function Strip(s: string): string {
    TrimEnd(TrimStart(s))
  }

  /** Position of the first `c`, or |s| when there is none. */
  function IndexOf(s: string, c: char): (i: nat)
    ensures i <= |s|
    ensures i < |s| ==> s[i] == c
    ensures forall j :: 0 <= j < i ==> s[j] != c
  {
    if s == [] || s[0] == c then 0 else 1 + IndexOf(s[1..], c)
  }

  /** Position of the first exponent marker, or |s| when there is none. */
  function ExponentStart(s: string): (i: nat)
    ensures i <= |s|
    ensures i < |s| ==> IsExponentMarker(s[i])
    ensures forall j :: 0 <= j < i ==> !IsExponentMarker(s[j])
  {
    if s == [] || IsExponentMarker(s[0]) then 0 else 1 + ExponentStart(s[1..])
  }

  /** An exact decimal number: digits × 10^exponent. */
  datatype Decimal = Decimal(digits: nat, exponent: int)

  function DecimalValue(d: Decimal): real {
    if d.exponent >= 0 then (d.digits * Pow10(d.exponent)) as real
    else d.digits as real / Pow10(-d.exponent) as real
  }

  /** The exponent suffix: empty (exponent 0), or a marker, an optional sign and at least one digit. */
  function ParseExponent(x: string): Option<int> {
    if x == [] then Some(0)
    else
      var rest := x[1..];
      var neg := |rest| > 0 && rest[0] == '-';
      var digits := if |rest| > 0 && IsSign(rest[0]) then rest[1..] else rest;
      if IsExponentMarker(x[0]) && |digits| > 0 && AllDigits(digits) then
        Some(if neg then -(DigitsValue(digits) as int) else DigitsValue(digits))
      else None
  }

  /** The mantissa: digits with at most one point and at least one digit; `12.50` is 1250 × 10^-2. */
  function ParseMantissa(m: string): Option<Decimal> {
    var p := IndexOf(m, '.');
    var whole := m[..p];
    var frac := if p < |m| then m[p + 1..] else [];
    if AllDigits(whole) && AllDigits(frac) && |whole| + |frac| > 0 then
      DigitsValueAppend(whole, frac);
      Some(Decimal(DigitsValue(whole + frac), -|frac|))
    else None
  }

  /** An unsigned literal: a mantissa followed by an optional exponent. */
  function ParseUnsigned(body: string): Option<Decimal> {
    var e := ExponentStart(body);
    var mantissa := ParseMantissa(body[..e]);
    var exponent := ParseExponent(body[e..]);
    if mantissa.Some? && exponent.Some? then
      Some(Decimal(mantissa.value.digits, mantissa.value.exponent + exponent.value))
    else None
  }

  /** A leading sign, if any (true for a minus), and what follows it. */
  function SplitSign(t: string): (bool, string) {
    if |t| > 0 && IsSign(t[0]) then (t[0] == '-', t[1..]) else (false, t)
  }

  /** Python's `float(s)`, with the exact decimal value in place of the nearest double. */
  function ParseFloat(s: string): (r: Result<real>)
    ensures r.Err? ==> r.error == ValueError(NotAFloat)
  {
    var (neg, body) := SplitSign(Strip(s));
    match ParseUnsigned(body)
    case None => Err(ValueError(NotAFloat))
    case Some(d) => Ok(if neg then -DecimalValue(d) else DecimalValue(d))
  }

  // ---------------------------------------------------------------------------------------------
  // What `float` accepts

  lemma {:induction false} TrimStartChars(s: string)
    ensures forall c :: c in s ==> c in TrimStart(s) || IsSpace(c)
  {
    if |s| > 0 && IsSpace(s[0]) {
      TrimStartChars(s[1..]);
      assert s == [s[0]] + s[1..];
    }
  }

  lemma {:induction false} TrimEndChars(s: string)
    ensures forall c :: c in s ==> c in TrimEnd(s) || IsSpace(c)
  {
    if |s| > 0 && IsSpace(s[|s| - 1]) {
      TrimEndChars(s[..|s| - 1]);
      assert s == s[..|s| - 1] + [s[|s| - 1]];
    }
  }

  lemma ParseExponentChars(x: string)
    requires ParseExponent(x).Some?
    ensures forall c :: c in x ==> IsFloatChar(c)
  {
    if x != [] {
      var rest := x[1..];
      var digits := if |rest| > 0 && IsSign(rest[0]) then rest[1..] else rest;
      assert x == [x[0]] + rest;
      assert rest == digits || rest == [rest[0]] + digits;
    }
  }

  lemma ParseMantissaChars(m: string)
    requires ParseMantissa(m).Some?
    ensures forall c :: c in m ==> IsDigit(c) || c == '.'
    ensures HasDigit(m)
  {
    var p := IndexOf(m, '.');
    var whole := m[..p];
    var frac := if p < |m| then m[p + 1..] else [];
    if p < |m| {
      assert m == whole + [m[p]] + frac;
    } else {
      assert m == whole;
    }
    assert if |whole| > 0 then m[0] == whole[0] else m[p + 1] == frac[0];
  }

  lemma FloatCharsAppend(a: string, b: string)
    requires forall c :: c in a ==> IsFloatChar(c)
    requires forall c :: c in b ==> IsFloatChar(c)
    ensures forall c :: c in a + b ==> IsFloatChar(c)
  {
  }

  lemma ParseUnsignedChars(body: string)
    requires ParseUnsigned(body).Some?
    ensures forall c :: c in body ==> IsFloatChar(c)
    ensures HasDigit(body)
  {
    var e := ExponentStart(body);
    var m, x := body[..e], body[e..];
    assert body == m + x;
    UnsignedPartsChars(m, x);
    assert HasDigit(m) by {
      ParseMantissaChars(m);
    }
    var i :| 0 <= i < |m| && IsDigit(m[i]);
    assert body[i] == m[i];
  }

  /** A mantissa followed by an exponent suffix holds only characters `float` can accept. */
  lemma UnsignedPartsChars(m: string, x: string)
    requires ParseMantissa(m).Some? && ParseExponent(x).Some?
    ensures forall c :: c in m + x ==> IsFloatChar(c)
  {
    ParseMantissaChars(m);
    ParseExponentChars(x);
    FloatCharsAppend(m, x);
  }

  /** What `float` accepts, the unsigned parser accepts once whitespace and a sign are removed. */
  lemma ParseFloatBody(s: string)
    ensures ParseFloat(s).Ok? <==> ParseUnsigned(SplitSign(Strip(s)).1).Some?
  {
  }

  /** Characters of a stripped, signed literal whose unsigned part parses. */
  lemma SignedChars(t: string)
    requires ParseUnsigned(SplitSign(t).1).Some?
    ensures forall c :: c in t ==> IsFloatChar(c)
    ensures HasDigit(t)
  {
    var body := SplitSign(t).1;
    ParseUnsignedChars(body);
    var i :| 0 <= i < |body| && IsDigit(body[i]);
    if |t| > 0 && IsSign(t[0]) {
      assert t == [t[0]] + body;
      assert t[i + 1] == body[i];
    } else {
      assert t == body;
    }
  }

  /** `float` accepts only strings built from whitespace, signs, digits, points and exponent markers. */
  lemma ParseFloatChars(s: string)
    ensures ParseFloat(s).Ok? ==> forall c :: c in s ==> IsFloatChar(c)
  {
    ParseFloatBody(s);
    if ParseUnsigned(SplitSign(Strip(s)).1).Some? {
      SignedChars(Strip(s));
      TrimStartChars(s);
      TrimEndChars(TrimStart(s));
    }
  }

  /** `float` needs at least one digit: "" and "." are rejected. */
  lemma ParseFloatNeedsDigit(s: string)
    ensures ParseFloat(s).Ok? ==> HasDigit(s)
  {
    ParseFloatBody(s);
    if ParseUnsigned(SplitSign(Strip(s)).1).Some? {
      var t := Strip(s);
      SignedChars(t);
      var i :| 0 <= i < |t| && IsDigit(t[i]);
      assert t[i] in s by {
        TrimStartKeeps(s);
        TrimEndKeeps(TrimStart(s));
      }
      var j :| 0 <= j < |s| && s[j] == t[i];
    }
  }

  lemma {:induction false} TrimStartKeeps(s: string)
    ensures forall c :: c in TrimStart(s) ==> c in s
  {
    if |s| > 0 && IsSpace(s[0]) {
      TrimStartKeeps(s[1..]);
    }
  }

  lemma {:induction false} TrimEndKeeps(s: string)
    ensures forall c :: c in TrimEnd(s) ==> c in s
  {
    if |s| > 0 && IsSpace(s[|s| - 1]) {
      TrimEndKeeps(s[..|s| - 1]);
    }
  }

  // ---------------------------------------------------------------------------------------------
  // What `float` returns on canonical literals

  /** Without an exponent marker the whole string is the mantissa. */
  lemma ParseUnsignedNoExponent(m: string)
    requires forall j :: 0 <= j < |m| ==> !IsExponentMarker(m[j])
    ensures ParseUnsigned(m) == ParseMantissa(m)
  {
    var e := ExponentStart(m);
    assert m[..e] == m;
    assert m[e..] == [];
  }

  /** A digit string is a mantissa with exponent 0. */
  lemma ParseUnsignedDigits(w: string)
    requires |w| > 0 && AllDigits(w)
    ensures ParseUnsigned(w) == Some(Decimal(DigitsValue(w), 0))
  {
    ParseUnsignedNoExponent(w);
    var p := IndexOf(w, '.');
    assert p == |w|;
    assert w[..p] == w;
    assert w + [] == w;
  }

  /** Digits, a point and digits: one integer scaled down by the fraction length. */
  lemma ParseUnsignedPoint(w: string, d: string)
    requires |w| > 0 && AllDigits(w) && AllDigits(d)
    ensures AllDigits(w + d)
    ensures ParseUnsigned(w + "." + d) == Some(Decimal(DigitsValue(w + d), -|d|))
  {
    var s := w + "." + d;
    assert s == w + ("." + d);
    ParseUnsignedNoExponent(s);
    IndexOfAppend(w, "." + d, '.');
    assert IndexOf("." + d, '.') == 0;
    assert s[..|w|] == w;
    assert s[|w| + 1..] == d;
    DigitsValueAppend(w, d);
  }

  /** Searching past a prefix that lacks `c`. */
  lemma {:induction false} IndexOfAppend(w: string, r: string, c: char)
    requires forall j :: 0 <= j < |w| ==> w[j] != c
    ensures IndexOf(w + r, c) == |w| + IndexOf(r, c)
  {
    if w != [] {
      assert (w + r)[1..] == w[1..] + r;
      IndexOfAppend(w[1..], r, c);
    } else {
      assert w + r == r;
    }
  }

  /** A stripped literal without a sign is read by the unsigned parser alone. */
  lemma ParseFloatUnsigned(s: string)
    requires |s| > 0 && !IsSpace(s[0]) && !IsSpace(s[|s| - 1]) && !IsSign(s[0])
    ensures Strip(s) == s
    ensures ParseUnsigned(s).Some? ==> ParseFloat(s) == Ok(DecimalValue(ParseUnsigned(s).value))
    ensures ParseUnsigned(s).None? ==> ParseFloat(s).Err?
  {
    assert SplitSign(s) == (false, s);
  }

  /** A string of digits reads as the number it spells. */
  lemma {:induction false} ParseFloatDigits(w: string)
    requires |w| > 0 && AllDigits(w)
    ensures ParseFloat(w) == Ok(DigitsValue(w) as real)
  {
    ParseFloatUnsigned(w);
    ParseUnsignedDigits(w);
    DecimalValueWhole(DigitsValue(w));
  }

  lemma DecimalValueWhole(x: nat)
    ensures DecimalValue(Decimal(x, 0)) == x as real
  {
    assert Pow10(0) == 1;
  }

  /** A canonical natural-number literal reads back as that number. */
  lemma ParseFloatShowNat(n: nat)
    ensures ParseFloat(ShowNat(n)) == Ok(n as real)
  {
    ParseFloatDigits(ShowNat(n));
    DigitsValueShowNat(n);
  }

  /** A leading minus negates the value. */
  lemma ParseFloatMinus(n: nat)
    ensures ParseFloat("-" + ShowNat(n)) == Ok(-(n as real))
  {
    var w := ShowNat(n);
    var s := "-" + w;
    assert s[1..] == w;
    assert s[|s| - 1] == w[|w| - 1];
    assert Strip(s) == s;
    assert SplitSign(s) == (true, w);
    ParseUnsignedDigits(w);
    DigitsValueShowNat(n);
  }

  /**
   * A literal `w.d` (digit strings, `d` possibly empty) reads back as the integer its digits
   * spell without the point, divided by 10^|d|.
   */
  lemma ParsePointLiteral(w: string, d: string)
    requires |w| > 0 && AllDigits(w) && AllDigits(d)
    ensures AllDigits(w + d)
    ensures ParseFloat(w + "." + d) == Ok(DigitsValue(w + d) as real / Pow10(|d|) as real)
  {
    var s := w + "." + d;
    assert s[0] == w[0];
    assert s[|s| - 1] == if d == [] then '.' else d[|d| - 1];
    ParseFloatUnsigned(s);
    ParseUnsignedPoint(w, d);
    DecimalValueNegative(DigitsValue(w + d), |d|);
  }

  lemma DecimalValueNegative(x: nat, k: nat)
    ensures DecimalValue(Decimal(x, -(k as int))) == x as real / Pow10(k) as real
  {
    if k == 0 {
      assert Pow10(0) == 1;
    }
  }

  /** `float` rejects a mantissa with a second point. */
  lemma ParseFloatTwoPoints()
    ensures ParseFloat("1.2.3").Err?
  {
    var s := "1.2.3";
    ParseFloatUnsigned(s);
    ParseUnsignedNoExponent(s);
    assert IndexOf(s, '.') == 1 by {
      assert IndexOf(s[1..], '.') == 0;
    }
    assert s[2..] == "2.3";
    assert !AllDigits("2.3") by {
      assert "2.3"[1] == '.';
    }
  }
}
