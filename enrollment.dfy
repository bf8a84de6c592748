/** `value_to_float`: compact enrollment counts such as "100k", "1.5k" or "3m" as numbers. */
module Enrollment {
  import opened Common
  import opened Text
  import opened FloatParse

  /** `float(rest) * 1000`; a `ValueError` from `float` propagates. */
  function ParsedThousands(rest: string): (r: Result<real>)
    ensures r.Err? <==> ParseFloat(rest).Err?
  {
    match ParseFloat(rest)
    case Ok(v) => Ok(v * 1000.0)
    case Err(e) => Err(e)
  }

  /** `float(rest) * 1000000`; a `ValueError` from `float` propagates. */
  function ParsedMillions(rest: string): (r: Result<real>)
    ensures r.Err? <==> ParseFloat(rest).Err?
  {
    match ParseFloat(rest)
    case Ok(v) => Ok(v * 1000000.0)
    case Err(e) => Err(e)
  }

  /**
   * The 'k' test comes first, so a string holding both letters is read as thousands; a bare
   * suffix counts one unit; a string with neither letter is the sentinel 0.0.
   */
  function ValueToFloat(x: string): (r: Result<real>)
    ensures 'k' !in x && 'm' !in x ==> r == Ok(0.0)
    ensures r.Err? ==> |x| > 1 && ('k' in x || 'm' in x) && r.error == ValueError(NotAFloat)
  {
    if 'k' in x then
      if |x| > 1 then ParsedThousands(RemoveAll(x, 'k')) else Ok(1000.0)
    else if 'm' in x then
      if |x| > 1 then ParsedMillions(RemoveAll(x, 'm')) else Ok(1000000.0)
    else Ok(0.0)
  }

  /** Any string holding 'k', other than "k" itself: `float` of the string with every 'k' removed, times a thousand. */
  lemma ThousandsBranch(x: string)
    requires 'k' in x && |x| > 1
    ensures ValueToFloat(x).Ok? <==> ParseFloat(RemoveAll(x, 'k')).Ok?
    ensures ValueToFloat(x).Ok? ==> ValueToFloat(x).value == ParseFloat(RemoveAll(x, 'k')).value * 1000.0
  {
  }

  /** Any string holding 'm' but no 'k', other than "m" itself: `float` of the rest, times a million. */
  lemma MillionsBranch(x: string)
    requires 'k' !in x && 'm' in x && |x| > 1
    ensures ValueToFloat(x).Ok? <==> ParseFloat(RemoveAll(x, 'm')).Ok?
    ensures ValueToFloat(x).Ok? ==> ValueToFloat(x).value == ParseFloat(RemoveAll(x, 'm')).value * 1000000.0
  {
  }

  /** Removing a suffix letter that digits and the point do not contain gives back the number. */
  lemma RemoveSuffix(s: string, c: char)
    requires c !in s
    ensures RemoveAll(s + [c], c) == s
  {
    RemoveAllAppend(s, [c], c);
    assert [c][1..] == [];
  }

  lemma DigitsLackLetters(s: string)
    requires AllDigits(s)
    ensures 'k' !in s && 'm' !in s
  {
  }

  /** With no 'k' in the literal, "<lit>k" takes the thousands branch on exactly the literal. */
  lemma ThousandsSuffixBranch(lit: string)
    requires 'k' !in lit && |lit| > 0
    ensures ValueToFloat(lit + "k") == ParsedThousands(lit)
  {
    var x := lit + "k";
    assert x[|lit|] == 'k';
    RemoveSuffix(lit, 'k');
  }

  lemma MillionsSuffixBranch(lit: string)
    requires 'k' !in lit && 'm' !in lit && |lit| > 0
    ensures ValueToFloat(lit + "m") == ParsedMillions(lit)
  {
    var x := lit + "m";
    assert x[|lit|] == 'm';
    assert forall i :: 0 <= i < |x| ==> x[i] == 'm' || x[i] in lit;
    RemoveSuffix(lit, 'm');
  }

  lemma ParsedThousandsOk(lit: string, v: real)
    requires ParseFloat(lit) == Ok(v)
    ensures ParsedThousands(lit) == Ok(v * 1000.0)
  {
  }

  lemma ParsedMillionsOk(lit: string, v: real)
    requires ParseFloat(lit) == Ok(v)
    ensures ParsedMillions(lit) == Ok(v * 1000000.0)
  {
  }

  /** A 'k' appended to any literal without 'k' multiplies its value by a thousand. */
  lemma ThousandsSuffix(lit: string, v: real)
    requires 'k' !in lit && ParseFloat(lit) == Ok(v)
    ensures ValueToFloat(lit + "k").Ok? && ValueToFloat(lit + "k").value == v * 1000.0
  {
    ParseFloatNeedsDigit(lit);
    ThousandsSuffixBranch(lit);
    ParsedThousandsOk(lit, v);
  }

  /** An 'm' appended to any literal without 'k' or 'm' multiplies its value by a million. */
  lemma MillionsSuffix(lit: string, v: real)
    requires 'k' !in lit && 'm' !in lit && ParseFloat(lit) == Ok(v)
    ensures ValueToFloat(lit + "m").Ok? && ValueToFloat(lit + "m").value == v * 1000000.0
  {
    ParseFloatNeedsDigit(lit);
    MillionsSuffixBranch(lit);
    ParsedMillionsOk(lit, v);
  }

  /** A digit string followed by 'k' is the number it spells, times a thousand; leading zeros are allowed. */
  lemma {:induction false} CompactThousands(lit: string)
    requires |lit| > 0 && AllDigits(lit)
    ensures ValueToFloat(lit + "k").Ok? && ValueToFloat(lit + "k").value == DigitsValue(lit) as real * 1000.0
  {
    DigitsLackLetters(lit);
    ParseFloatDigits(lit);
    ThousandsSuffix(lit, DigitsValue(lit) as real);
  }

  /** A digit string followed by 'm' is the number it spells, times a million; leading zeros are allowed. */
  lemma {:induction false} CompactMillions(lit: string)
    requires |lit| > 0 && AllDigits(lit)
    ensures ValueToFloat(lit + "m").Ok? && ValueToFloat(lit + "m").value == DigitsValue(lit) as real * 1000000.0
  {
    DigitsLackLetters(lit);
    ParseFloatDigits(lit);
    MillionsSuffix(lit, DigitsValue(lit) as real);
  }

  /** "<w>.<d>k" is the decimal v = w.d times a thousand, for digit strings w and d. */
  lemma CompactDecimalThousands(w: string, d: string, v: real)
    requires |w| > 0 && AllDigits(w) && AllDigits(d)
    requires AllDigits(w + d) && v == DigitsValue(w + d) as real / Pow10(|d|) as real
    ensures ValueToFloat(w + "." + d + "k").Ok? && ValueToFloat(w + "." + d + "k").value == v * 1000.0
  {
    DigitsLackLetters(w);
    DigitsLackLetters(d);
    assert 'k' !in w + "." + d;
    ParsePointLiteral(w, d);
    ThousandsSuffix(w + "." + d, v);
  }

  /** "<w>.<d>m" is the decimal v = w.d times a million, for digit strings w and d. */
  lemma CompactDecimalMillions(w: string, d: string, v: real)
    requires |w| > 0 && AllDigits(w) && AllDigits(d)
    requires AllDigits(w + d) && v == DigitsValue(w + d) as real / Pow10(|d|) as real
    ensures ValueToFloat(w + "." + d + "m").Ok? && ValueToFloat(w + "." + d + "m").value == v * 1000000.0
  {
    DigitsLackLetters(w);
    DigitsLackLetters(d);
    assert 'k' !in w + "." + d && 'm' !in w + "." + d;
    ParsePointLiteral(w, d);
    MillionsSuffix(w + "." + d, v);
  }

  /** A count written without a suffix is not read at all: every plain number gives 0.0. */
  lemma PlainNumberIsZero(n: nat)
    ensures ValueToFloat(ShowNat(n)) == Ok(0.0)
  {
    DigitsLackLetters(ShowNat(n));
  }

  /** Because 'k' is checked first, a string with both letters keeps its 'm' and is rejected. */
  lemma ThousandsCheckedFirst(x: string)
    requires 'k' in x && 'm' in x
    ensures ValueToFloat(x).Err?
  {
    ParseFloatChars(RemoveAll(x, 'k'));
  }

  /** A 'k' string without any digit leaves nothing `float` can read: "kk" raises. */
  lemma SuffixWithoutDigits(x: string)
    requires 'k' in x && |x| > 1
    requires forall i :: 0 <= i < |x| ==> !IsDigit(x[i])
    ensures ValueToFloat(x).Err?
  {
    var rest := RemoveAll(x, 'k');
    assert !HasDigit(rest) by {
      forall i | 0 <= i < |rest|
        ensures !IsDigit(rest[i])
      {
        assert rest[i] in x;
      }
    }
    ParseFloatNeedsDigit(rest);
  }

  lemma ExampleHundredThousand()
    ensures ValueToFloat("100k") == Ok(100000.0)
  {
    assert "100" + "k" == "100k";
    assert DigitsValue("100") == 100 by {
      assert "100"[..2] == "10" && "10"[..1] == "1" && "1"[..0] == "";
    }
    CompactThousands("100");
  }

  lemma ExampleThreeMillion()
    ensures ValueToFloat("3m") == Ok(3000000.0)
  {
    assert "3" + "m" == "3m";
    assert DigitsValue("3") == 3;
    CompactMillions("3");
  }

  lemma ExampleOneAndAHalfThousand()
    ensures ValueToFloat("1.5k") == Ok(1500.0)
  {
    assert "1" + "." + "5" + "k" == "1.5k";
    assert DigitsValue("15") == 15;
    CompactDecimalThousands("1", "5", 1.5);
  }

  lemma ExampleBareSuffixes()
    ensures ValueToFloat("k") == Ok(1000.0)
    ensures ValueToFloat("m") == Ok(1000000.0)
    ensures ValueToFloat("5") == Ok(0.0)
  {
  }

  lemma ExampleErrors()
    ensures ValueToFloat("kk").Err?
    ensures ValueToFloat("1.2.3k").Err?
  {
    SuffixWithoutDigits("kk");
    RemoveSuffix("1.2.3", 'k');
    assert "1.2.3" + "k" == "1.2.3k";
    ParseFloatTwoPoints();
  }
}
