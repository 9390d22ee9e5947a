/**
 Fixed-point cost texts: `format!("{:.15}")`, trimmed. A finite float is the exact real it denotes, and
 printing rounds that real once.
 */
module Decimal {
  import opened Json

  datatype F64 = Finite(r: real) | NotANumber | Infinite(negative: bool)

  /// Digits

  function DigitChar(n: nat): char
    requires n < 10
  {
    ('0' as int + n) as char
  }

  function Digits(n: nat): (s: string)
    ensures s != []
  {
    if n < 10 then [DigitChar(n)] else Digits(n / 10) + [DigitChar(n % 10)]
  }

  function DigitValue(c: char): nat {
    if Digit(c) then c as int - '0' as int else 0
  }

  // The number a run of digits denotes.
  function Value(s: string): nat {
    if s == [] then 0 else 10 * Value(s[..|s| - 1]) + DigitValue(s[|s| - 1])
  }

  predicate AllDigits(s: string) {
    forall k :: 0 <= k < |s| ==> Digit(s[k])
  }

  lemma {:induction false} DigitsDenote(n: nat)
    ensures AllDigits(Digits(n)) && Value(Digits(n)) == n
    ensures Digits(n)[0] == '0' ==> n == 0
    ensures n < 10 ==> |Digits(n)| == 1
  {
    if n >= 10 {
      DigitsDenote(n / 10);
      var s := Digits(n / 10);
      assert (s + [DigitChar(n % 10)])[..|s|] == s;
    } else {
      assert [DigitChar(n)][..0] == [];
      assert Value([]) == 0;
    }
  }

  function Pow10(n: nat): (p: nat)
    ensures p > 0
  {
    if n == 0 then 1 else 10 * Pow10(n - 1)
  }

  // `n` in at least `width` digits.
  function Padded(n: nat, width: nat): string {
    if width == 0 then [] else Padded(n / 10, width - 1) + [DigitChar(n % 10)]
  }

  lemma {:induction false} PaddedDenotes(n: nat, width: nat)
    requires n < Pow10(width)
    ensures AllDigits(Padded(n, width)) && |Padded(n, width)| == width && Value(Padded(n, width)) == n
    decreases width
  {
    if width > 0 {
      PaddedDenotes(n / 10, width - 1);
      var s := Padded(n / 10, width - 1);
      assert (s + [DigitChar(n % 10)])[..|s|] == s;
    }
  }

  /// Rounding

  const PLACES: nat := 15
  const UNIT: nat := 1_000_000_000_000_000

  // The integer nearest to `x`, the even one of two at the same distance.
  function HalfEven(x: real): (n: int)
    ensures x - 0.5 <= n as real <= x + 0.5
    ensures x >= 0.0 ==> n >= 0
    ensures n as real == x - 0.5 || n as real == x + 0.5 ==> n % 2 == 0
  {
    var floor := x.Floor;
    var rest := x - floor as real;
    if rest < 0.5 then floor
    else if rest > 0.5 then floor + 1
    else if floor % 2 == 0 then floor
    else floor + 1
  }

  function Magnitude(r: real): (m: real)
    ensures m >= 0.0
  {
    if r < 0.0 then -r else r
  }

  // The magnitude in units of the last place.
  function Units(r: real): nat {
    HalfEven(Magnitude(r) * UNIT as real)
  }

  function Sign(negative: bool): string {
    if negative then "-" else ""
  }

  // `{:.15}`
  function Shown(value: F64): string {
    match value
    case Finite(r) => Sign(r < 0.0) + Digits(Units(r) / UNIT) + "." + Padded(Units(r) % UNIT, PLACES)
    case NotANumber => "NaN"
    case Infinite(negative) => Sign(negative) + "inf"
  }

  function TrimEnd(s: string, c: char): (t: string)
    ensures t <= s && (t != [] ==> t[|t| - 1] != c)
  {
    if s != [] && s[|s| - 1] == c then TrimEnd(s[..|s| - 1], c) else s
  }

  function Trimmed(value: F64): string {
    var trimmed := TrimEnd(TrimEnd(Shown(value), '0'), '.');
    if '.' in trimmed then trimmed else trimmed + ".0"
  }

  function FormatCost(value: F64): string {
    if value == Finite(0.0) then "0.0" else Trimmed(value)
  }

  /// The text it comes to

  // The last `width` places, without the zeros at the end but with at least one digit.
  function Fraction(n: nat, width: nat): (s: string)
  {
    if width > 1 && n % 10 == 0 then Fraction(n / 10, width - 1) else Padded(n, width)
  }

  function Plain(negative: bool, units: nat): string {
    Sign(negative) + Digits(units / UNIT) + "." + Fraction(units % UNIT, PLACES)
  }

  lemma {:induction false} TrimNothing(s: string, c: char)
    requires s == [] || s[|s| - 1] != c
    ensures TrimEnd(s, c) == s
  {
  }

  lemma TrimSnoc(s: string, d: char, c: char)
    ensures TrimEnd(s + [d], c) == if d == c then TrimEnd(s, c) else s + [d]
  {
    assert (s + [d])[..|s|] == s;
  }

  lemma PaddedParts(head: string, n: nat, width: nat)
    requires width > 0
    ensures head + Padded(n, width) == (head + Padded(n / 10, width - 1)) + [DigitChar(n % 10)]
    ensures DigitChar(n % 10) == '0' <==> n % 10 == 0
  {
  }

  // Trimming the fraction behind a point leaves the point if there is nothing but zeros.
  lemma {:induction false} TrimFraction(head: string, n: nat, width: nat)
    requires n < Pow10(width) && head != [] && head[|head| - 1] == '.'
    ensures TrimEnd(head + Padded(n, width), '0') == if n == 0 then head else head + Fraction(n, width)
    decreases width
  {
    if width == 0 {
      assert head + [] == head;
      TrimNothing(head, '0');
    } else {
      PaddedParts(head, n, width);
      TrimSnoc(head + Padded(n / 10, width - 1), DigitChar(n % 10), '0');
      if n % 10 == 0 {
        TrimFraction(head, n / 10, width - 1);
        assert n > 0 ==> width > 1 by { assert Pow10(0) == 1; }
      }
    }
  }

  lemma {:induction false} FractionEndsInDigit(n: nat, width: nat)
    requires width > 0
    ensures Fraction(n, width) != [] && Digit(Fraction(n, width)[|Fraction(n, width)| - 1])
    decreases width
  {
    if width > 1 && n % 10 == 0 {
      FractionEndsInDigit(n / 10, width - 1);
    } else {
      assert Padded(n, width) == Padded(n / 10, width - 1) + [DigitChar(n % 10)];
    }
  }

  lemma PlacesAreUnits()
    ensures Pow10(PLACES) == UNIT
  {
    assert Pow10(5) == 100_000;
    assert Pow10(10) == 10_000_000_000;
    assert Pow10(15) == UNIT;
  }

  lemma NoPoint(negative: bool, n: nat)
    ensures '.' !in Sign(negative) + Digits(n) && '.' !in Digits(n)
    ensures var s := Sign(negative) + Digits(n); s != [] && s[|s| - 1] != '.'
  {
    DigitsDenote(n);
    var s := Sign(negative) + Digits(n);
    forall k | 0 <= k < |s| ensures s[k] != '.' {
      assert negative && k > 0 ==> s[k] == Digits(n)[k - 1];
    }
  }

  lemma TrimPoint(head: string, fraction: string, n: nat)
    requires '.' !in head && head != [] && head[|head| - 1] != '.'
    requires fraction != [] && fraction[|fraction| - 1] != '.' && (n == 0 ==> fraction == "0")
    ensures var trimmed := TrimEnd(if n == 0 then head + "." else head + "." + fraction, '.');
            (if '.' in trimmed then trimmed else trimmed + ".0") == head + "." + fraction
  {
    if n == 0 {
      TrimSnoc(head, '.', '.');
      TrimNothing(head, '.');
      assert head + ".0" == head + "." + "0";
    } else {
      var text := head + "." + fraction;
      assert text[|head|] == '.';
      TrimNothing(text, '.');
    }
  }

  lemma ShownParts(r: real)
    ensures Shown(Finite(r)) == (Sign(r < 0.0) + Digits(Units(r) / UNIT) + ".") + Padded(Units(r) % UNIT, PLACES)
    ensures Units(r) % UNIT < Pow10(PLACES)
  {
    PlacesAreUnits();
    hide Units, Digits, Padded;
  }

  // Whether the shortcut for zero is taken or not, the text is the plain one.
  lemma TrimmedIsPlain(r: real)
    ensures Trimmed(Finite(r)) == Plain(r < 0.0, Units(r))
  {
    hide Units, Digits, Fraction, Padded, TrimEnd, Pow10, Shown, Sign;
    var fraction := Units(r) % UNIT;
    var head := Sign(r < 0.0) + Digits(Units(r) / UNIT);
    ShownParts(r);
    TrimFraction(head + ".", fraction, PLACES);
    NoPoint(r < 0.0, Units(r) / UNIT);
    FractionEndsInDigit(fraction, PLACES);
    if fraction == 0 {
      ZeroFraction(PLACES);
    }
    TrimPoint(head, Fraction(fraction, PLACES), fraction);
  }

  lemma {:induction false} ZeroFraction(width: nat)
    requires width > 0
    ensures Fraction(0, width) == "0"
  {
    if width > 1 {
      ZeroFraction(width - 1);
    } else {
      assert Padded(0, 1) == Padded(0, 0) + ['0'];
    }
  }

  lemma ZeroIsPlain()
    ensures Units(0.0) == 0 && Plain(false, 0) == "0.0"
  {
    ZeroFraction(PLACES);
    assert Digits(0) == "0";
    hide Fraction, Digits;
    assert Plain(false, 0) == [] + "0" + "." + "0";
  }

  // The shortcut gives what the general path would.
  lemma ZeroShortcutAgrees()
    ensures Trimmed(Finite(0.0)) == FormatCost(Finite(0.0)) == "0.0"
  {
    hide Trimmed, Plain, Units;
    TrimmedIsPlain(0.0);
    ZeroIsPlain();
  }

  lemma CostIsPlain(r: real)
    ensures FormatCost(Finite(r)) == Plain(r < 0.0, Units(r))
  {
    TrimmedIsPlain(r);
    ZeroShortcutAgrees();
  }
}
