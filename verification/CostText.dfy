/**
 What the cost texts denote: numbers of the JSON grammar within half a unit of the last place, in the
 shortest form, and stable under printing again.
 */
module CostText {
  import opened Wrappers
  import opened Json
  import opened Decimal

  /// The value of a JSON number

  function Power(negative: bool, e: nat): real {
    if negative then 1.0 / Pow10(e) as real else Pow10(e) as real
  }

  // `s[i..]` is empty or an exponent.
  function Exponent(s: string, i: nat): real
    requires i <= |s|
  {
    if i == |s| then 1.0
    else if i + 1 < |s| && (s[i + 1] == '+' || s[i + 1] == '-') then Power(s[i + 1] == '-', Value(s[i + 2..]))
    else Power(false, Value(s[i + 1..]))
  }

  function Mantissa(s: string, start: nat, point: nat, end: nat): real
    requires start <= point <= end <= |s|
  {
    Value(s[start..point]) as real
    + if point == end then 0.0 else Value(s[point + 1..end]) as real / Pow10(end - point - 1) as real
  }

  function NumeralValue(s: string): real
    requires IsNumber(s)
  {
    var start := if s[0] == '-' then 1 else 0;
    var point := IntegerEnd(s, start).value;
    var end := FractionEnd(s, point).value;
    var magnitude := Mantissa(s, start, point, end) * Exponent(s, end);
    if start == 1 then -magnitude else magnitude
  }

  /// Whole numbers

  lemma {:induction false} DigitsRun(s: string, i: nat, j: nat)
    requires i <= j <= |s| && (forall k :: i <= k < j ==> Digit(s[k])) && (j < |s| ==> !Digit(s[j]))
    ensures DigitsEnd(s, i) == j
    decreases j - i
  {
    if i < j {
      DigitsRun(s, i + 1, j);
    }
  }

  lemma IntegerRun(s: string, i: nat, n: nat)
    requires i + |Digits(n)| <= |s| && s[i..i + |Digits(n)|] == Digits(n)
    requires i + |Digits(n)| < |s| ==> !Digit(s[i + |Digits(n)|])
    ensures IntegerEnd(s, i) == Some(i + |Digits(n)|)
  {
    var j := i + |Digits(n)|;
    DigitsDenote(n);
    hide Digits;
    forall k | i <= k < j ensures Digit(s[k]) {
      assert s[k] == s[i..j][k - i];
    }
    assert s[i] == s[i..j][0];
    if s[i] != '0' {
      DigitsRun(s, i + 1, j);
    }
  }

  lemma WholeNumber(n: nat)
    ensures IsNumber(Digits(n)) && NumeralValue(Digits(n)) == n as real
  {
    var s := Digits(n);
    DigitsDenote(n);
    assert s[0..0 + |s|] == s;
    assert Digit(s[0]);
    IntegerRun(s, 0, n);
    hide Digits, IntegerEnd;
    assert s[0..|s|] == s;
  }

  /// Fractions

  lemma {:induction false} PowerSum(a: nat, b: nat)
    ensures Pow10(a + b) == Pow10(a) * Pow10(b)
  {
    if a > 0 {
      PowerSum(a - 1, b);
      assert Pow10(a + b) == 10 * Pow10(a + b - 1);
      assert Pow10(a) * Pow10(b) == 10 * (Pow10(a - 1) * Pow10(b));
    }
  }

  lemma UntrimmedDenotes(n: nat, width: nat)
    requires n < Pow10(width) && width > 0 && (width == 1 || n % 10 != 0)
    ensures var s := Fraction(n, width);
            && 0 < |s| <= width && AllDigits(s) && (s == "0" || s[|s| - 1] != '0')
            && Value(s) * Pow10(width - |s|) == n
  {
    PaddedDenotes(n, width);
    assert Pow10(0) == 1;
    var init := Padded(n / 10, width - 1);
    assert Fraction(n, width) == init + [DigitChar(n % 10)];
    if n % 10 == 0 {
      ZeroFraction(1);
      assert Pow10(1) == 10 * Pow10(0);
    }
  }

  lemma {:induction false} FractionDenotes(n: nat, width: nat)
    requires n < Pow10(width) && width > 0
    ensures var s := Fraction(n, width);
            && 0 < |s| <= width && AllDigits(s) && (s == "0" || s[|s| - 1] != '0')
            && Value(s) * Pow10(width - |s|) == n
    decreases width
  {
    hide *;
    if width > 1 && n % 10 == 0 {
      ZeroDropped(n, width);
      FractionDenotes(n / 10, width - 1);
      var s := Fraction(n / 10, width - 1);
      TenTimes(Value(s), width - 1 - |s|);
    } else {
      UntrimmedDenotes(n, width);
    }
  }

  lemma ZeroDropped(n: nat, width: nat)
    requires n < Pow10(width) && width > 1 && n % 10 == 0
    ensures Fraction(n, width) == Fraction(n / 10, width - 1) && n / 10 < Pow10(width - 1)
  {
  }

  lemma TenTimes(v: nat, e: nat)
    ensures v * Pow10(e + 1) == 10 * (v * Pow10(e))
  {
    assert Pow10(e + 1) == 10 * Pow10(e);
    hide Pow10;
    var power := Pow10(e);
    assert v * (10 * power) == 10 * (v * power);
  }

  lemma Cancel(a: nat, b: nat, c: nat, n: nat)
    requires b > 0 && c > 0 && a * c == n
    ensures a as real / b as real == n as real / (b * c) as real
  {
    var x := a as real / b as real;
    assert x * b as real == a as real;
    assert n as real == a as real * c as real;
    assert (b * c) as real == b as real * c as real;
    assert x * (b as real * c as real) == a as real * c as real;
  }

  lemma FractionValue(n: nat)
    requires n < UNIT
    ensures var s := Fraction(n, PLACES); Value(s) as real / Pow10(|s|) as real == n as real / UNIT as real
  {
    PlacesAreUnits();
    FractionDenotes(n, PLACES);
    var s := Fraction(n, PLACES);
    PowerSum(|s|, PLACES - |s|);
    Cancel(Value(s), Pow10(|s|), Pow10(PLACES - |s|), n);
  }

  /// Cost texts

  // One sign at most, one point, digits around it, no zero that could be left out.
  predicate Shortest(s: string, negative: bool, whole: string, fraction: string) {
    && s == (if negative then "-" else "") + whole + "." + fraction
    && AllDigits(whole) && whole != [] && (whole == "0" || whole[0] != '0')
    && AllDigits(fraction) && 0 < |fraction| <= 15 && (fraction == "0" || fraction[|fraction| - 1] != '0')
  }

  ghost predicate HasShortestForm(s: string, negative: bool) {
    exists whole, fraction :: Shortest(s, negative, whole, fraction)
  }

  lemma PlainIsShortest(negative: bool, units: nat)
    ensures Shortest(Plain(negative, units), negative, Digits(units / UNIT), Fraction(units % UNIT, PLACES))
  {
    PlacesAreUnits();
    DigitsDenote(units / UNIT);
    FractionDenotes(units % UNIT, PLACES);
    hide Fraction;
  }

  lemma PlainParts(s: string, negative: bool, whole: string, fraction: string)
    requires s == Sign(negative) + whole + "." + fraction && whole != [] && Digit(whole[0])
    ensures s != [] && (s[0] == '-' <==> negative)
    ensures var start := if negative then 1 else 0;
            var point := start + |whole|;
            && point < |s| && s[start..point] == whole && s[point] == '.' && s[point + 1..] == fraction
  {
  }

  lemma PartsEnd(s: string, point: nat)
    requires point + 1 < |s| && s[point] == '.' && DigitsEnd(s, point + 1) == |s|
    ensures FractionEnd(s, point) == Some(|s|) && ExponentEnd(s, |s|) == Some(|s|) && Exponent(s, |s|) == 1.0
    ensures Mantissa(s, 0, point, |s|) ==
            Value(s[0..point]) as real + Value(s[point + 1..]) as real / Pow10(|s| - point - 1) as real
  {
    hide DigitsEnd, Value, Pow10;
    assert s[point + 1..|s|] == s[point + 1..];
  }

  lemma PartsDenote(s: string, point: nat)
    requires s != [] && point + 1 < |s| && s[point] == '.'
    requires IntegerEnd(s, if s[0] == '-' then 1 else 0) == Some(point) && DigitsEnd(s, point + 1) == |s|
    ensures IsNumber(s)
    ensures var start := if s[0] == '-' then 1 else 0;
            && start <= point
            && NumeralValue(s) == (if start == 1 then -1.0 else 1.0) *
                 (Value(s[start..point]) as real + Value(s[point + 1..]) as real / Pow10(|s| - point - 1) as real)
  {
    hide IntegerEnd, DigitsEnd, Value, Pow10, FractionEnd, ExponentEnd, Exponent;
    PartsEnd(s, point);
    assert s[point + 1..|s|] == s[point + 1..];
  }

  lemma PlainForm(negative: bool, units: nat)
    ensures var whole, fraction := Digits(units / UNIT), Fraction(units % UNIT, PLACES);
            && Plain(negative, units) == Sign(negative) + whole + "." + fraction
            && whole != [] && Digit(whole[0]) && AllDigits(fraction) && fraction != []
  {
    hide Digits, Fraction;
    PlainIsShortest(negative, units);
  }

  lemma TextDenotes(s: string, start: nat, point: nat, n: nat, fraction: string)
    requires s != [] && start == if s[0] == '-' then 1 else 0
    requires point == start + |Digits(n)| < |s| && s[start..point] == Digits(n) && s[point] == '.'
    requires s[point + 1..] == fraction && AllDigits(fraction) && fraction != []
    ensures IsNumber(s)
    ensures NumeralValue(s) == (if start == 1 then -1.0 else 1.0)
                               * (n as real + Value(fraction) as real / Pow10(|fraction|) as real)
  {
    hide *;
    DigitsDenote(n);
    PointIsNoDigit();
    IntegerRun(s, start, n);
    FractionRun(s, point + 1, fraction);
    PartsDenote(s, point);
  }

  // The text is a JSON number, and denotes what was rounded to.
  lemma PlainDenotes(negative: bool, units: nat)
    ensures var s := Plain(negative, units);
            IsNumber(s) && NumeralValue(s) == (if negative then -1.0 else 1.0) * (units as real / UNIT as real)
  {
    hide Plain, Digits, Fraction, Value, Pow10, IsNumber, NumeralValue, AllDigits, Sign;
    var s, n, fraction := Plain(negative, units), units / UNIT, Fraction(units % UNIT, PLACES);
    var start := if negative then 1 else 0;
    PlainForm(negative, units);
    PlainParts(s, negative, Digits(n), fraction);
    TextDenotes(s, start, start + |Digits(n)|, n, fraction);
    FractionValue(units % UNIT);
    SumOfParts(units);
  }

  lemma PointIsNoDigit()
    ensures !Digit('.')
  {
  }

  lemma FractionRun(s: string, i: nat, fraction: string)
    requires i <= |s| && s[i..] == fraction && AllDigits(fraction)
    ensures DigitsEnd(s, i) == |s|
  {
    forall k | i <= k < |s| ensures Digit(s[k]) {
      assert s[k] == s[i..][k - i];
    }
    DigitsRun(s, i, |s|);
  }

  lemma SumOfParts(units: nat)
    ensures (units / UNIT) as real + (units % UNIT) as real / UNIT as real == units as real / UNIT as real
  {
    assert units == units / UNIT * UNIT + units % UNIT;
  }

  // The multiple of 10^-15 nearest to the cost, the even one of two.
  ghost predicate IsRounded(r: real, value: real) {
    var exact, scaled := r * 1_000_000_000_000_000.0, value * 1_000_000_000_000_000.0;
    && scaled.Floor as real == scaled && exact - 0.5 <= scaled <= exact + 0.5
    && (scaled == exact - 0.5 || scaled == exact + 0.5 ==> scaled.Floor % 2 == 0)
  }

  // What one cost is printed as.
  lemma CostText(r: real)
    ensures var s := FormatCost(Finite(r));
            && IsNumber(s) && IsRounded(r, NumeralValue(s))
            && HasShortestForm(s, r < 0.0)
  {
    CostIsPlain(r);
    PlainDenotes(r < 0.0, Units(r));
    PlainIsShortest(r < 0.0, Units(r));
    hide FormatCost, Plain, NumeralValue, IsNumber, Shortest, Digits, Fraction;
    UnitsAreRounded(r);
  }

  lemma UnitsAreRounded(r: real)
    ensures IsRounded(r, (if r < 0.0 then -1.0 else 1.0) * (Units(r) as real / UNIT as real))
  {
    var n: int := Units(r);
    NearestUnits(r);
    hide Units, HalfEven;
    if r < 0.0 {
      ScaledIsRounded(r, -(n as real / UNIT as real), -n);
    } else {
      ScaledIsRounded(r, n as real / UNIT as real, n);
    }
  }

  lemma NearestUnits(r: real)
    ensures var exact, n := Magnitude(r) * 1_000_000_000_000_000.0, Units(r);
            && exact - 0.5 <= n as real <= exact + 0.5
            && (n as real == exact - 0.5 || n as real == exact + 0.5 ==> n % 2 == 0)
  {
    hide HalfEven, Magnitude;
  }

  lemma ScaledIsRounded(r: real, value: real, n: int)
    requires value == n as real / 1_000_000_000_000_000.0
    requires var exact := r * 1_000_000_000_000_000.0;
             && exact - 0.5 <= n as real <= exact + 0.5
             && (n as real == exact - 0.5 || n as real == exact + 0.5 ==> n % 2 == 0)
    ensures IsRounded(r, value)
  {
    assert value * 1_000_000_000_000_000.0 == n as real;
  }

  lemma RoundsToNearest(r: real)
    ensures Magnitude(r) - 0.5 / UNIT as real <= Units(r) as real / UNIT as real <= Magnitude(r) + 0.5 / UNIT as real
  {
  }

  // The cost a printed cost denotes.
  function Rounded(r: real): real {
    (if r < 0.0 then -1.0 else 1.0) * (Units(r) as real / UNIT as real)
  }

  lemma CostDenotes(r: real)
    ensures IsNumber(FormatCost(Finite(r))) && NumeralValue(FormatCost(Finite(r))) == Rounded(r)
  {
    CostIsPlain(r);
    PlainDenotes(r < 0.0, Units(r));
  }

  lemma UnitsOfUnits(n: nat)
    ensures Units(n as real / UNIT as real) == n && Units(-(n as real / UNIT as real)) == n
  {
    var x := n as real / UNIT as real;
    assert x >= 0.0 && x * UNIT as real == n as real;
  }

  // Printing the number that was read gives the same text, unless a negative cost rounded to zero.
  lemma PrintedAgain(r: real)
    ensures IsNumber(FormatCost(Finite(r)))
    ensures FormatCost(Finite(NumeralValue(FormatCost(Finite(r))))) == FormatCost(Finite(r))
            <==> r >= 0.0 || Units(r) > 0
  {
    CostDenotes(r);
    CostIsPlain(r);
    CostIsPlain(Rounded(r));
    UnitsOfUnits(Units(r));
    hide FormatCost, NumeralValue, IsNumber, Units;
    SignOfRounded(r);
    if r < 0.0 && Units(r) == 0 {
      PlainZeros();
    }
  }

  lemma SignOfRounded(r: real)
    ensures Rounded(r) < 0.0 <==> r < 0.0 && Units(r) > 0
    ensures Units(r) == 0 ==> Rounded(r) == 0.0
    ensures Rounded(r) == Units(r) as real / UNIT as real || Rounded(r) == -(Units(r) as real / UNIT as real)
  {
    hide Units;
  }

  lemma PlainZeros()
    ensures Plain(true, 0) != Plain(false, 0)
  {
    hide Digits, Fraction;
    var tail := Digits(0) + "." + Fraction(0, PLACES);
    assert Plain(true, 0) == "-" + tail && Plain(false, 0) == tail;
    assert |Plain(true, 0)| == |tail| + 1;
  }
}
