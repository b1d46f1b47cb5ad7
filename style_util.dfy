/**
 * Style helpers: reading a computed style property, JavaScript's parseFloat,
 * and converting a CSS length expression ("12.5pt") to CSS pixels in the
 * context of an element.
 */
module StyleUtil {
  import opened Outcome
  import opened Text
  import opened Dom

  /** getRawCssStyle: the computed value of a property, "" when the engine reports none. */
  function GetRawCssStyle(view: NodeView, styleName: string): (r: string)
    ensures styleName !in view.computed ==> r == ""
    ensures styleName in view.computed ==> r == view.computed[styleName]
  {
    if styleName in view.computed then view.computed[styleName] else ""
  }

  // ---------------------------------------------------------------------
  // Decimal numerals

  /** The value of a decimal digit character (0 for any other character). */
  function DigitValue(c: char): nat
  {
    if IsDigit(c) then c as int - '0' as int else 0
  }

  function DigitChar(d: nat): (c: char)
    requires d < 10
    ensures IsDigit(c) && DigitValue(c) == d
  {
    ('0' as int + d) as char
  }

  ghost predicate AllDigits(d: string)
  {
    forall k :: 0 <= k < |d| ==> IsDigit(d[k])
  }

  /** The number a run of decimal digits denotes ("" denotes 0). */
  function DigitsValue(d: string): nat
  {
    if d == [] then 0 else DigitsValue(d[..|d| - 1]) * 10 + DigitValue(d[|d| - 1])
  }

  /** The decimal numeral of n, without leading zeros. */
  function Numeral(n: nat): string
    decreases n
  {
    if n < 10 then [DigitChar(n)] else Numeral(n / 10) + [DigitChar(n % 10)]
  }

  /** Numeral is a right inverse of DigitsValue: printing then reading gives the number back. */
  lemma {:induction false} NumeralRoundTrip(n: nat)
    ensures |Numeral(n)| > 0 && AllDigits(Numeral(n))
    ensures DigitsValue(Numeral(n)) == n
    decreases n
  {
    var d := Numeral(n);
    if n < 10 {
      assert d[..|d| - 1] == [];
    } else {
      NumeralRoundTrip(n / 10);
      assert d[..|d| - 1] == Numeral(n / 10);
    }
  }

  /**
   * The value of the digits t[i..j] written after a decimal point, read
   * from the right: each digit is worth a tenth of the one before it.
   */
  function FractionAt(t: string, i: nat, j: nat): real
    requires i <= j <= |t|
    decreases j - i
  {
    if i == j then 0.0 else (DigitValue(t[i]) as real + FractionAt(t, i + 1, j)) / 10.0
  }

  /** A fraction lies in [0, 1). */
  lemma {:induction false} FractionAtBounds(t: string, i: nat, j: nat)
    requires i <= j <= |t|
    ensures 0.0 <= FractionAt(t, i, j) < 1.0
    decreases j - i
  {
    if i < j {
      FractionAtBounds(t, i + 1, j);
    }
  }

  /** The value of the digits d written after a decimal point. */
  function Fraction(d: string): real
  {
    FractionAt(d, 0, |d|)
  }

  /** The fraction is zero exactly when every digit is a zero. */
  lemma {:induction false} FractionAtZeroIff(t: string, i: nat, j: nat)
    requires i <= j <= |t|
    requires forall k :: i <= k < j ==> IsDigit(t[k])
    ensures FractionAt(t, i, j) == 0.0 <==> forall k :: i <= k < j ==> t[k] == '0'
    decreases j - i
  {
    if i < j {
      FractionAtBounds(t, i + 1, j);
      FractionAtZeroIff(t, i + 1, j);
    }
  }

  /** Fraction digits read inside the second part of a concatenation are read in that part. */
  lemma {:induction false} FractionAtOfSuffix(x: string, y: string, k: nat)
    requires k <= |y| && AllDigits(y)
    ensures FractionAt(x + y, |x| + k, |x| + |y|) == FractionAt(y, k, |y|)
    decreases |y| - k
  {
    if k < |y| {
      assert (x + y)[|x| + k] == y[k];
      FractionAtOfSuffix(x, y, k + 1);
    }
  }

  // ---------------------------------------------------------------------
  // Runs of characters

  /** The character classes the style helpers scan for. */
  datatype CharClass = Space | Digit | NumberChar | Letter

  predicate InClass(c: char, cls: CharClass)
  {
    match cls
    case Space => IsSpace(c)
    case Digit => IsDigit(c)
    case NumberChar => IsNumberChar(c)
    case Letter => IsLetter(c)
  }

  /**
   * The length of the longest run of characters of class cls starting at
   * index i: Text.Run for a named class rather than a predicate value.
   */
  function Span(s: string, i: nat, cls: CharClass): (n: nat)
    requires i <= |s|
    ensures i + n <= |s|
    ensures i + n == |s| || !InClass(s[i + n], cls)
    decreases |s| - i
  {
    if i < |s| && InClass(s[i], cls) then 1 + Span(s, i + 1, cls) else 0
  }

  /** Every character of the run is of the class. */
  lemma {:induction false} SpanInClass(s: string, i: nat, cls: CharClass)
    requires i <= |s|
    ensures forall k :: i <= k < i + Span(s, i, cls) ==> InClass(s[k], cls)
    decreases |s| - i
  {
    if i < |s| && InClass(s[i], cls) {
      SpanInClass(s, i + 1, cls);
    }
  }

  /** A block of n characters of the class, ended by the string's end or by a character outside it, is the run at i. */
  lemma {:induction false} SpanOfBlock(s: string, i: nat, n: nat, cls: CharClass)
    requires i + n <= |s|
    requires forall k :: i <= k < i + n ==> InClass(s[k], cls)
    requires i + n == |s| || !InClass(s[i + n], cls)
    ensures Span(s, i, cls) == n
    decreases n
  {
    if n > 0 {
      SpanOfBlock(s, i + 1, n - 1, cls);
    }
  }

  /** A run inside the second part of a concatenation is the run in that part. */
  lemma {:induction false} SpanOfSuffix(x: string, y: string, k: nat, cls: CharClass)
    requires k <= |y|
    ensures Span(x + y, |x| + k, cls) == Span(y, k, cls)
    decreases |y| - k
  {
    if k < |y| {
      assert (x + y)[|x| + k] == y[k];
      SpanOfSuffix(x, y, k + 1, cls);
    }
  }

  // ---------------------------------------------------------------------
  // parseFloat

  /** The text after the leading white space. */
  function Trimmed(s: string): string
  {
    s[Span(s, 0, Space)..]
  }

  /** The text parseFloat reads its digits from: leading white space and one sign removed. */
  function Unsigned(s: string): string
  {
    var t := Trimmed(s);
    if |t| > 0 && IsSign(t[0]) then t[1..] else t
  }

  /** A minus sign follows the leading white space. */
  predicate IsNegative(s: string)
  {
    var t := Trimmed(s);
    |t| > 0 && t[0] == '-'
  }

  /** A number starts here: a digit, or a dot followed by a digit. */
  predicate StartsNumber(u: string)
  {
    || (|u| > 0 && IsDigit(u[0]))
    || (|u| > 1 && u[0] == '.' && IsDigit(u[1]))
  }

  /**
   * parseFloat without exponents or "Infinity": leading white space is
   * skipped, then an optional sign and the longest prefix of the form
   * digits [ "." digits ] with at least one digit; what follows is ignored.
   * None stands for NaN.
   */
  function ParseFloat(s: string): Option<real>
  {
    match ParseUnsignedDecimal(Unsigned(s))
    case None => None
    case Some(v) => Some(if IsNegative(s) then -v else v)
  }

  /**
   * parseFloat is NaN exactly when no digit, nor a dot and a digit, follows
   * the white space and the sign; a number read has the sign written.
   */
  lemma {:induction false} ParseFloatIsNumber(s: string)
    ensures ParseFloat(s).Some? <==> StartsNumber(Unsigned(s))
    ensures ParseFloat(s).Some? && IsNegative(s) ==> ParseFloat(s).value <= 0.0
    ensures ParseFloat(s).Some? && !IsNegative(s) ==> ParseFloat(s).value >= 0.0
  {
    UnsignedIsNonNegative(Unsigned(s));
  }

  /** digits [ "." digits ] at the start of t, with at least one digit. */
  function ParseUnsignedDecimal(t: string): (r: Option<real>)
    ensures r.Some? <==> StartsNumber(t)
  {
    var n := Span(t, 0, Digit);
    var whole := DigitsValue(t[..n]) as real;
    if n < |t| && t[n] == '.' then
      var f := Span(t, n + 1, Digit);
      if n == 0 && f == 0 then None
      else Some(whole + FractionAt(t, n + 1, n + 1 + f))
    else if n == 0 then None
    else Some(whole)
  }

  /** What is read without a sign is never negative. */
  lemma {:induction false} UnsignedIsNonNegative(t: string)
    ensures ParseUnsignedDecimal(t).Some? ==> ParseUnsignedDecimal(t).value >= 0.0
  {
    var n := Span(t, 0, Digit);
    if n < |t| && t[n] == '.' {
      FractionAtBounds(t, n + 1, n + 1 + Span(t, n + 1, Digit));
    }
  }

  /** A magnitude with the sign written in front of it applied. */
  function Signed(sign: string, v: real): real
  {
    if sign == "-" then -v else v
  }

  /** White space in front of the text does not change what parseFloat reads. */
  lemma {:induction false} LeadingSpaceIgnored(c: char, s: string)
    requires IsSpace(c)
    ensures ParseFloat([c] + s) == ParseFloat(s)
  {
    var cs := [c] + s;
    SpanOfSuffix([c], s, 0, Space);
    var m := Span(s, 0, Space);
    assert Span(cs, 0, Space) == 1 + m;
    assert cs[1 + m..] == s[m..];
    ReadFromTrimmed(cs, s);
  }

  /** parseFloat reads only the text after the leading white space. */
  lemma {:induction false} ReadFromTrimmed(s: string, s': string)
    requires Trimmed(s) == Trimmed(s')
    ensures ParseFloat(s) == ParseFloat(s')
  {
  }

  /** Digits, a dot and digits are read as the whole part plus the fraction. */
  lemma {:induction false} UnsignedOfDecimal(w: string, d: string)
    requires AllDigits(w) && AllDigits(d) && (|w| > 0 || |d| > 0)
    ensures ParseUnsignedDecimal(w + "." + d) == Some(DigitsValue(w) as real + Fraction(d))
  {
    var t := w + "." + d;
    var n := |w|;
    assert t[..n] == w && t[n] == '.';
    assert FractionAt(t, n + 1, n + 1 + |d|) == Fraction(d) by {
      FractionAtOfSuffix(w + ".", d, 0);
    }
    assert Span(t, 0, Digit) == n && Span(t, n + 1, Digit) == |d| by {
      SpanOfBlock(t, 0, n, Digit);
      SpanOfBlock(t, n + 1, |d|, Digit);
    }
    UnsignedFromRuns(t, w, d);
  }

  /** The number read off the digit runs on both sides of a dot. */
  lemma {:induction false} UnsignedFromRuns(t: string, w: string, d: string)
    requires AllDigits(w) && AllDigits(d) && (|w| > 0 || |d| > 0)
    requires |w| + 1 + |d| <= |t| && t[|w|] == '.' && t[..|w|] == w
    requires Span(t, 0, Digit) == |w| && Span(t, |w| + 1, Digit) == |d|
    requires FractionAt(t, |w| + 1, |w| + 1 + |d|) == Fraction(d)
    ensures ParseUnsignedDecimal(t) == Some(DigitsValue(w) as real + Fraction(d))
  {
  }

  lemma {:induction false} UnsignedOfDigits(d: string)
    requires |d| > 0 && AllDigits(d)
    ensures ParseUnsignedDecimal(d) == Some(DigitsValue(d) as real)
  {
    SpanOfBlock(d, 0, |d|, Digit);
    assert d[..|d|] == d;
  }

  /** A sign (or none) written directly before an unsigned number sets the sign of what parseFloat reads. */
  lemma {:induction false} ParseFloatSigned(sign: string, u: string, v: real)
    requires sign == "" || sign == "+" || sign == "-"
    requires |u| > 0 && IsDigit(u[0])
    requires ParseUnsignedDecimal(u) == Some(v)
    ensures ParseFloat(sign + u) == Some(Signed(sign, v))
  {
    assert !IsSpace(u[0]) && !IsSign(u[0]);
    var s := sign + u;
    assert s[0] == if sign == "" then u[0] else sign[0];
    assert Span(s, 0, Space) == 0;
    assert Trimmed(s) == s;
    assert Unsigned(s) == u by {
      assert sign != "" ==> s[1..] == u;
    }
  }

  /** parseFloat reads back a printed whole number, with or without a sign in front. */
  lemma {:induction false} ParseFloatOfNumeral(n: nat)
    ensures ParseFloat(Numeral(n)) == Some(n as real)
    ensures ParseFloat("+" + Numeral(n)) == Some(n as real)
    ensures ParseFloat("-" + Numeral(n)) == Some(-(n as real))
  {
    var d := Numeral(n);
    NumeralRoundTrip(n);
    UnsignedOfDigits(d);
    ParseFloatSigned("", d, n as real);
    assert "" + d == d;
    ParseFloatSigned("+", d, n as real);
    ParseFloatSigned("-", d, n as real);
  }

  /** parseFloat reads back a printed decimal number "w.d", with or without a sign in front. */
  lemma {:induction false} ParseFloatOfDecimal(sign: string, w: nat, d: string)
    requires sign == "" || sign == "+" || sign == "-"
    requires AllDigits(d)
    ensures ParseFloat(sign + (Numeral(w) + "." + d)) == Some(Signed(sign, w as real + Fraction(d)))
  {
    var wd := Numeral(w);
    NumeralRoundTrip(w);
    var u := wd + "." + d;
    assert IsDigit(u[0]) by {
      assert u[0] == wd[0];
    }
    UnsignedOfDecimal(wd, d);
    ParseFloatSigned(sign, u, w as real + Fraction(d));
  }

  // ---------------------------------------------------------------------
  // LENGTH_EXPR_PATTERN = /([\-\+]?[0-9\.]+)([a-zA-Z]+)/

  predicate IsSign(c: char)
  {
    c == '-' || c == '+'
  }

  /** `[0-9\.]` */
  predicate IsNumberChar(c: char)
  {
    IsDigit(c) || c == '.'
  }

  /**
   * The pattern tried at index i. Both groups are greedy runs of disjoint
   * classes, so the only backtracking point is the optional sign: without it
   * the number group would have to start on the sign, which it cannot.
   */
  function MatchLengthAt(s: string, i: nat): Option<(string, string)>
    requires i <= |s|
  {
    var start := if i < |s| && IsSign(s[i]) then i + 1 else i;
    var n := Span(s, start, NumberChar);
    var u := Span(s, start + n, Letter);
    if n == 0 || u == 0 then None
    else Some((s[i..start + n], s[start + n..start + n + u]))
  }

  /** String.prototype.match: the leftmost index at which the pattern matches. */
  function SearchLength(s: string, i: nat): Option<(string, string)>
    requires i <= |s|
    decreases |s| - i
  {
    var m := MatchLengthAt(s, i);
    if m.Some? || i == |s| then m else SearchLength(s, i + 1)
  }

  /** The (number, unit) groups of the leftmost match in a length expression. */
  function MatchLength(s: string): Option<(string, string)>
  {
    SearchLength(s, 0)
  }

  /** Somewhere a digit or dot is immediately followed by a letter. */
  ghost predicate HasNumberBeforeLetter(s: string)
  {
    exists k :: 0 <= k < |s| - 1 && NumberBeforeLetterAt(s, k)
  }

  predicate NumberBeforeLetterAt(s: string, k: nat)
    requires k + 1 < |s|
  {
    IsNumberChar(s[k]) && IsLetter(s[k + 1])
  }

  /** The pattern matches exactly the strings in which a digit or dot is immediately followed by a letter. */
  lemma {:induction false} MatchLengthIff(s: string)
    ensures MatchLength(s).Some? <==> HasNumberBeforeLetter(s)
  {
    if MatchLength(s).Some? {
      SearchWitness(s, 0);
    }
    if HasNumberBeforeLetter(s) {
      var k :| 0 <= k < |s| - 1 && NumberBeforeLetterAt(s, k);
      SearchReaches(s, 0, k);
    }
  }

  lemma {:induction false} SearchWitness(s: string, i: nat)
    requires i <= |s|
    requires SearchLength(s, i).Some?
    ensures HasNumberBeforeLetter(s)
    decreases |s| - i
  {
    if MatchLengthAt(s, i).Some? {
      var start := if i < |s| && IsSign(s[i]) then i + 1 else i;
      var n := Span(s, start, NumberChar);
      SpanInClass(s, start, NumberChar);
      assert NumberBeforeLetterAt(s, start + n - 1);
    } else {
      SearchWitness(s, i + 1);
    }
  }

  lemma {:induction false} SearchReaches(s: string, i: nat, k: nat)
    requires i <= k && k + 1 < |s|
    requires IsNumberChar(s[k]) && IsLetter(s[k + 1])
    ensures SearchLength(s, i).Some?
    decreases k - i
  {
    if i == k {
      assert !IsSign(s[k]);
      SpanOfBlock(s, k, 1, NumberChar);
      assert MatchLengthAt(s, k).Some?;
    } else if MatchLengthAt(s, i).None? {
      SearchReaches(s, i + 1, k);
    }
  }

  /** A numeral followed by a unit matches with exactly that numeral and that unit. */
  lemma {:induction false} MatchLengthOfNumeral(sign: string, n: nat, unit: string)
    requires sign == "" || sign == "+" || sign == "-"
    requires |unit| > 0 && forall k :: 0 <= k < |unit| ==> IsLetter(unit[k])
    ensures MatchLength(sign + Numeral(n) + unit) == Some((sign + Numeral(n), unit))
  {
    NumeralRoundTrip(n);
    assert forall k :: 0 <= k < |Numeral(n)| ==> IsNumberChar(Numeral(n)[k]);
    MatchAtStart(sign + Numeral(n) + unit, sign, Numeral(n), unit);
  }

  lemma {:induction false} MatchAtStart(s: string, sign: string, d: string, unit: string)
    requires s == sign + d + unit
    requires sign == "" || sign == "+" || sign == "-"
    requires |d| > 0 && forall k :: 0 <= k < |d| ==> IsNumberChar(d[k])
    requires |unit| > 0 && forall k :: 0 <= k < |unit| ==> IsLetter(unit[k])
    ensures MatchLength(s) == Some((sign + d, unit))
  {
    var p := |sign|;
    var q := p + |d|;
    assert Span(s, p, NumberChar) == |d| by {
      assert forall k :: p <= k < q ==> s[k] == d[k - p];
      assert q < |s| && s[q] == unit[0];
      SpanOfBlock(s, p, |d|, NumberChar);
    }
    assert Span(s, q, Letter) == |unit| by {
      assert forall k :: q <= k < |s| ==> s[k] == unit[k - q];
      SpanOfBlock(s, q, |unit|, Letter);
    }
    assert (0 < |s| && IsSign(s[0])) == (p == 1) by {
      assert s[p] == d[0];
    }
    assert s[0..q] == sign + d && s[q..q + |unit|] == unit;
    MatchFromRuns(s, sign + d, unit, p);
  }

  /** The match at index 0 read off the run lengths. */
  lemma {:induction false} MatchFromRuns(s: string, number: string, unit: string, p: nat)
    requires p <= 1 && |number| > p && |unit| > 0
    requires |number| + |unit| <= |s|
    requires s[0..|number|] == number && s[|number|..|number| + |unit|] == unit
    requires Span(s, p, NumberChar) == |number| - p
    requires Span(s, |number|, Letter) == |unit|
    requires (0 < |s| && IsSign(s[0])) == (p == 1)
    ensures MatchLength(s) == Some((number, unit))
  {
    assert MatchLengthAt(s, 0) == Some((number, unit));
  }

  // ---------------------------------------------------------------------
  // Unit conversion

  /**
   * computeCssUnitToCssPxRatio without its DOM probe: pixels per unit. The
   * ratio is 1 for "px", for a missing element or unit, and for an element
   * without a parent; otherwise it is the probe's rendered width divided by 100.
   */
  function UnitRatio(element: Option<NodeView>, unit: string): (r: real)
    ensures unit == "px" || unit == "" || element.None? || !element.value.hasParent ==> r == 1.0
    ensures element.Some? && element.value.hasParent && unit != "" && unit != "px" ==>
              r == element.value.probeWidth(unit) / 100.0
  {
    if element.Some? && unit != "" && unit != "px" && element.value.hasParent then
      element.value.probeWidth(unit) / 100.0
    else
      1.0
  }

  /** A number of units, each worth ratio pixels, in pixels. */
  function InPixels(magnitude: real, ratio: real): real
  {
    magnitude * ratio
  }

  /** At one pixel per unit the magnitude is the number of pixels. */
  lemma {:induction false} InPixelsOfOne(magnitude: real)
    ensures InPixels(magnitude, 1.0) == magnitude
  {
  }

  /**
   * computeCssPxForLengthInElement: the number part of the leftmost
   * number+unit match times the unit's ratio. An expression without a digit
   * or dot directly followed by a letter is refused.
   */
  function ComputeCssPxForLengthInElement(element: Option<NodeView>, lengthExpr: string): (r: Result<real>)
    ensures r.Err? ==> r.error == LengthExpected(lengthExpr) || r.error == NotANumber(lengthExpr)
  {
    match MatchLength(lengthExpr)
    case None => Err(LengthExpected(lengthExpr))
    case Some((number, unit)) =>
      match ParseFloat(number)
      case None => Err(NotANumber(lengthExpr))
      case Some(magnitude) => Ok(InPixels(magnitude, UnitRatio(element, unit)))
  }

  /** An expression is refused as not a length exactly when no digit or dot is directly followed by a letter. */
  lemma {:induction false} LengthExpectedIff(element: Option<NodeView>, lengthExpr: string)
    ensures !HasNumberBeforeLetter(lengthExpr) <==>
              ComputeCssPxForLengthInElement(element, lengthExpr) == Err(LengthExpected(lengthExpr))
  {
    MatchLengthIff(lengthExpr);
  }

  /** Converting a written whole number of units is linear: n units give n times the unit's ratio. */
  lemma {:induction false} LengthOfNumeral(element: Option<NodeView>, n: nat, unit: string)
    requires |unit| > 0 && forall k :: 0 <= k < |unit| ==> IsLetter(unit[k])
    ensures ComputeCssPxForLengthInElement(element, Numeral(n) + unit) == Ok(InPixels(n as real, UnitRatio(element, unit)))
  {
    var d := Numeral(n);
    assert ComputeCssPxForLengthInElement(element, d + unit) == Ok(InPixels(n as real, UnitRatio(element, unit))) by {
      ParseFloatOfNumeral(n);
      MatchLengthOfNumeral("", n, unit);
      assert "" + d + unit == d + unit && "" + d == d;
      ConvertMatched(element, d + unit, d, unit, n as real);
    }
  }

  /** A minus sign in front of the numeral negates the converted length. */
  lemma {:induction false} LengthOfNegatedNumeral(element: Option<NodeView>, n: nat, unit: string)
    requires |unit| > 0 && forall k :: 0 <= k < |unit| ==> IsLetter(unit[k])
    ensures ComputeCssPxForLengthInElement(element, "-" + Numeral(n) + unit) == Ok(InPixels(-(n as real), UnitRatio(element, unit)))
  {
    var d := Numeral(n);
    var expr := "-" + d + unit;
    assert ParseFloat("-" + d) == Some(-(n as real)) by {
      ParseFloatOfNumeral(n);
    }
    assert MatchLength(expr) == Some(("-" + d, unit)) by {
      MatchLengthOfNumeral("-", n, unit);
    }
    ConvertMatched(element, expr, "-" + d, unit, -(n as real));
  }

  /** Converting a written decimal "w.d" of units, signed or not, scales its value by the unit's ratio. */
  lemma {:induction false} LengthOfDecimal(element: Option<NodeView>, sign: string, w: nat, d: string, unit: string)
    requires sign == "" || sign == "+" || sign == "-"
    requires AllDigits(d)
    requires |unit| > 0 && forall k :: 0 <= k < |unit| ==> IsLetter(unit[k])
    ensures ComputeCssPxForLengthInElement(element, sign + (Numeral(w) + "." + d) + unit)
            == Ok(InPixels(Signed(sign, w as real + Fraction(d)), UnitRatio(element, unit)))
  {
    var number := Numeral(w) + "." + d;
    assert MatchLength(sign + number + unit) == Some((sign + number, unit)) by {
      NumeralRoundTrip(w);
      assert forall k :: 0 <= k < |number| ==> IsNumberChar(number[k]) by {
        forall k | 0 <= k < |number|
          ensures IsNumberChar(number[k])
        {
          if k < |Numeral(w)| {
            assert number[k] == Numeral(w)[k];
          } else if k > |Numeral(w)| {
            assert number[k] == d[k - |Numeral(w)| - 1];
          }
        }
      }
      MatchAtStart(sign + number + unit, sign, number, unit);
    }
    assert ParseFloat(sign + number) == Some(Signed(sign, w as real + Fraction(d))) by {
      ParseFloatOfDecimal(sign, w, d);
    }
    ConvertMatched(element, sign + number + unit, sign + number, unit, Signed(sign, w as real + Fraction(d)));
  }

  /** "1.500em" is one and a half times the width of an em. */
  lemma {:induction false} OneAndAHalfEms(element: Option<NodeView>)
    ensures ComputeCssPxForLengthInElement(element, "1.500em") == Ok(InPixels(1.5, UnitRatio(element, "em")))
  {
    DecimalSpelled("1", "500", "em", "1.500em");
    FractionOfDigits();
    Ems();
    assert Numeral(1) == "1";
    LengthOfDecimal(element, "", 1, "500", "em");
  }

  /** "5.313em" is 5.313 times the width of an em. */
  lemma {:induction false} FivePointThreeThirteenEms(element: Option<NodeView>)
    ensures ComputeCssPxForLengthInElement(element, "5.313em") == Ok(InPixels(5.313, UnitRatio(element, "em")))
  {
    DecimalSpelled("5", "313", "em", "5.313em");
    FractionOfDigits();
    Ems();
    assert Numeral(5) == "5";
    LengthOfDecimal(element, "", 5, "313", "em");
  }

  lemma {:induction false} DecimalSpelled(w: string, d: string, unit: string, s: string)
    requires s == w + "." + d + unit
    ensures "" + (w + "." + d) + unit == s
  {
  }

  lemma {:induction false} FractionOfDigits()
    ensures Fraction("500") == 0.5 && Fraction("313") == 0.313
  {
    assert FractionAt("500", 2, 3) == 0.0;
    assert FractionAt("313", 2, 3) == 0.3;
  }

  lemma {:induction false} Ems()
    ensures |"em"| > 0 && forall k :: 0 <= k < |"em"| ==> IsLetter("em"[k])
  {
    assert IsLetter("em"[0]) && IsLetter("em"[1]);
  }

  lemma {:induction false} ConvertMatched(element: Option<NodeView>, expr: string, number: string, unit: string, magnitude: real)
    requires MatchLength(expr) == Some((number, unit))
    requires ParseFloat(number) == Some(magnitude)
    ensures ComputeCssPxForLengthInElement(element, expr) == Ok(InPixels(magnitude, UnitRatio(element, unit)))
  {
  }

  /** Pixel lengths are taken as written, whatever the element. */
  lemma {:induction false} PixelsAsWritten(element: Option<NodeView>, n: nat)
    ensures ComputeCssPxForLengthInElement(element, Numeral(n) + "px") == Ok(n as real)
    ensures ComputeCssPxForLengthInElement(element, "-" + Numeral(n) + "px") == Ok(-(n as real))
  {
    assert UnitRatio(element, "px") == 1.0;
    assert IsLetter("px"[0]) && IsLetter("px"[1]);
    UnitLengthAsWritten(element, n, "px");
    NegatedUnitLengthAsWritten(element, n, "px");
  }

  /** A unit worth one pixel leaves a whole number as written. */
  lemma {:induction false} UnitLengthAsWritten(element: Option<NodeView>, n: nat, unit: string)
    requires |unit| > 0 && forall k :: 0 <= k < |unit| ==> IsLetter(unit[k])
    requires UnitRatio(element, unit) == 1.0
    ensures ComputeCssPxForLengthInElement(element, Numeral(n) + unit) == Ok(n as real)
  {
    LengthOfNumeral(element, n, unit);
    InPixelsOfOne(n as real);
  }

  /** The same for a negated whole number. */
  lemma {:induction false} NegatedUnitLengthAsWritten(element: Option<NodeView>, n: nat, unit: string)
    requires |unit| > 0 && forall k :: 0 <= k < |unit| ==> IsLetter(unit[k])
    requires UnitRatio(element, unit) == 1.0
    ensures ComputeCssPxForLengthInElement(element, "-" + Numeral(n) + unit) == Ok(-(n as real))
  {
    LengthOfNegatedNumeral(element, n, unit);
    InPixelsOfOne(-(n as real));
  }

  /** A bare number without a unit is not a length. */
  lemma {:induction false} BareZeroIsNotALength(element: Option<NodeView>)
    ensures ComputeCssPxForLengthInElement(element, "0") == Err(LengthExpected("0"))
  {
    assert MatchLengthAt("0", 0).None?;
    assert MatchLengthAt("0", 1).None?;
  }

  /** The numeral of 500 is "500". */
  lemma {:induction false} NumeralOfFiveHundred()
    ensures Numeral(500) == "500"
  {
    assert Numeral(5) == "5";
    assert Numeral(50) == "50";
  }

  /** "500px" is 500 pixels. */
  lemma {:induction false} FiveHundredPixels(element: Option<NodeView>)
    ensures ComputeCssPxForLengthInElement(element, "500px") == Ok(500.0)
  {
    NumeralOfFiveHundred();
    PixelsAsWritten(element, 500);
    assert Numeral(500) + "px" == "500px";
  }

  /** A whole number printed the way a stylesheet writes it: a minus sign, then the digits. */
  function SignedNumeral(n: int): (d: string)
    ensures |d| > 0 && (d[0] == '-' || IsDigit(d[0]))
    ensures forall k :: 0 <= k < |d| ==> d[k] == '-' || IsDigit(d[k])
  {
    NumeralRoundTrip(if n < 0 then -n else n);
    if n < 0 then "-" + Numeral(-n) else Numeral(n)
  }

  /** Any whole number of pixels, negative ones included, is read as written. */
  lemma {:induction false} PixelsOfSignedNumeral(element: Option<NodeView>, n: int)
    ensures ComputeCssPxForLengthInElement(element, SignedNumeral(n) + "px") == Ok(n as real)
  {
    if n < 0 {
      var m: nat := -n;
      calc {
        ComputeCssPxForLengthInElement(element, SignedNumeral(n) + "px");
        { assert SignedNumeral(n) + "px" == "-" + Numeral(m) + "px"; }
        ComputeCssPxForLengthInElement(element, "-" + Numeral(m) + "px");
        { PixelsAsWritten(element, m); }
        Ok(-(m as real));
      }
    } else {
      calc {
        ComputeCssPxForLengthInElement(element, SignedNumeral(n) + "px");
        { assert SignedNumeral(n) + "px" == Numeral(n) + "px"; }
        ComputeCssPxForLengthInElement(element, Numeral(n) + "px");
        { PixelsAsWritten(element, n); }
        Ok(n as real);
      }
    }
  }
}
