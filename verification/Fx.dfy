/**
 Exact cross-rate conversion: amounts and rates are rationals until one rounding to eight decimals,
 halves away from zero.
 */
module Fx {
  import opened Prelude
  import opened Money

  const UNITS: int := 100000000

  /** A `big.Rat` with a positive denominator; lowest terms are not kept, see ScaleInvariant. */
  datatype Rat = Rat(num: int, den: int)

  type Rational = r: Rat | r.den > 0 witness Rat(0, 1)

  function Multiply(a: Rational, b: Rational): Rational {
    Positive(a.den, b.den);
    Rat(a.num * b.num, a.den * b.den)
  }

  /** `big.Rat.Quo`; a negative divisor moves its sign to the numerator. */
  function Quotient(a: Rational, b: Rational): Rational
    requires b.num != 0
  {
    if b.num > 0 then
      Positive(a.den, b.num);
      Rat(a.num * b.den, a.den * b.num)
    else
      Positive(a.den, -b.num);
      Rat(-a.num * b.den, a.den * -b.num)
  }

  lemma Positive(a: int, b: int)
    requires a > 0 && b > 0
    ensures a * b > 0
  {
  }

  /** The integer that `round` prints: quotient and remainder truncated, then a half or more moves away from zero. */
  function Round(num: int, den: int): int
    requires den > 0
  {
    var quotient := if num >= 0 then num / den else -((-num) / den);
    var remainder := if num >= 0 then num % den else -((-num) % den);
    if 2 * Abs(remainder) >= den then (if num >= 0 then quotient + 1 else quotient - 1) else quotient
  }

  function RoundText(value: Rational): string {
    Print(Round(value.num * UNITS, value.den))
  }

  function Print(quotient: int): string {
    var absolute := Pad(NatString(Abs(quotient)));
    var integer, fraction := absolute[..|absolute| - SCALE], TrimRightZeros(absolute[|absolute| - SCALE..]);
    var result := integer + (if fraction != "" then "." + fraction else "");
    if quotient < 0 then "-" + result else result
  }

  datatype FxError = Unavailable | Invalid(money: MoneyError) | DivideByZero

  /** Convert, given the outcome of looking up each side's rate per US dollar. */
  function Convert(amount: int, same: bool, fromRate: Result<Rational, FxError>, toRate: Result<Rational, FxError>)
    : Result<int, FxError>
    requires fromRate.Ok? ==> fromRate.value.num > 0
    requires toRate.Ok? ==> toRate.value.num > 0
  {
    if same then Ok(amount)
    else
      var from :- fromRate;
      var to :- toRate;
      match Parse(RoundText(Multiply(Quotient(Rat(amount, UNITS), from), to)))
      case Ok(converted) => Ok(converted)
      case Err(e) => Err(Invalid(e))
  }

  function Percent(numerator: int, denominator: int): Result<string, FxError> {
    if denominator == 0 then Err(DivideByZero)
    else Ok(RoundText(Multiply(Quotient(Rat(numerator, UNITS), Rat(denominator, UNITS)), Rat(100, 1))))
  }

  /** A provider's quote as a positive eight-decimal text. */
  function Normalize(value: Rational): Result<string, FxError> {
    if value.num <= 0 then Err(Unavailable) else Ok(RoundText(value))
  }

  // ----- rounding

  /** The nearest integer to num / den, and of two equally near the one farther from zero. */
  ghost predicate Nearest(num: int, den: int, q: int) {
    && 2 * Abs(num - q * den) <= den
    && (2 * Abs(num - q * den) == den ==> Abs(num) < Abs(q * den))
  }

  lemma {:induction false} RoundIsOdd(num: int, den: int)
    requires den > 0
    ensures Round(-num, den) == -Round(num, den)
  {
  }

  lemma {:induction false} RoundIsNearest(num: int, den: int)
    requires den > 0
    ensures Nearest(num, den, Round(num, den))
  {
    if num >= 0 {
      var q, r := num / den, num % den;
      assert num == q * den + r;
      assert (q + 1) * den == q * den + den;
    } else {
      var q, r := (-num) / den, (-num) % den;
      assert -num == q * den + r;
      assert (-q) * den == -(q * den) && (-q - 1) * den == -(q * den) - den;
    }
  }

  lemma {:induction false} NearestIsUnique(num: int, den: int, p: int, q: int)
    requires den > 0 && Nearest(num, den, p) && Nearest(num, den, q)
    ensures p == q
  {
    if p < q {
      NearestNotBelow(num, den, p, q);
    } else if q < p {
      NearestNotBelow(num, den, q, p);
    }
  }

  lemma MulStep(p: int, q: int, den: int)
    requires den > 0 && p < q
    ensures p * den + den <= q * den
  {
    NotNegative(q - p - 1, den);
    assert (q - p - 1) * den == q * den - p * den - den;
  }

  lemma NotNegative(a: int, b: int)
    requires a >= 0 && b >= 0
    ensures a * b >= 0
  {
  }

  lemma {:induction false} NearestNotBelow(num: int, den: int, p: int, q: int)
    requires den > 0 && Nearest(num, den, p) && Nearest(num, den, q)
    ensures p >= q
  {
    if p < q {
      MulStep(p, q, den);
      if p < 0 {
        MulStep(p, 0, den);
      }
      if q > 0 {
        MulStep(0, q, den);
      }
      NoMidpoint(num, den, p * den, q * den);
    }
  }

  /** Nothing is as near to two neighbouring multiples that both lie farther from zero. */
  lemma NoMidpoint(num: int, den: int, x: int, y: int)
    requires den > 0 && x + den <= y && (x >= 0 || x <= -den) && (y <= 0 || y >= den)
    requires 2 * Abs(num - x) <= den && (2 * Abs(num - x) == den ==> Abs(num) < Abs(x))
    ensures !(2 * Abs(num - y) <= den && (2 * Abs(num - y) == den ==> Abs(num) < Abs(y)))
  {
  }

  /** Rounding depends on the rational only, not on the terms it is written in. */
  lemma {:induction false} ScaleInvariant(num: int, den: int, k: int)
    requires den > 0 && k > 0
    ensures k * den > 0 && Round(k * num, k * den) == Round(num, den)
  {
    hide Round;
    Positive(k, den);
    var q := Round(num, den);
    RoundIsNearest(num, den);
    NearestScales(num, den, q, k);
    RoundIsNearest(k * num, k * den);
    NearestIsUnique(k * num, k * den, q, Round(k * num, k * den));
  }

  lemma {:induction false} NearestScales(num: int, den: int, q: int, k: int)
    requires den > 0 && k > 0 && Nearest(num, den, q)
    ensures Nearest(k * num, k * den, q)
  {
    ScaledGap(num, den, q * den, k);
    Reorder(q, k, den);
  }

  lemma Reorder(q: int, k: int, x: int)
    ensures q * (k * x) == k * (q * x)
  {
  }

  lemma Distribute(k: int, x: int, y: int)
    ensures k * x - k * y == k * (x - y)
  {
  }

  lemma {:induction false} ScaledGap(num: int, den: int, x: int, k: int)
    requires k > 0
    ensures 2 * Abs(num - x) <= den <==> 2 * Abs(k * num - k * x) <= k * den
    ensures 2 * Abs(num - x) == den <==> 2 * Abs(k * num - k * x) == k * den
    ensures Abs(num) < Abs(x) <==> Abs(k * num) < Abs(k * x)
  {
    var gap := num - x;
    Distribute(k, num, x);
    ScaleAbs(k, gap);
    ScaleAbs(k, num);
    ScaleAbs(k, x);
    ScaleOrder(k, Abs(num), Abs(x));
    ScaleOrder(k, 2 * Abs(gap), den);
    Reorder(2, k, Abs(gap));
  }

  lemma ScaleAbs(k: int, x: int)
    requires k > 0
    ensures Abs(k * x) == k * Abs(x)
  {
    if x >= 0 {
      assert k * x >= 0;
    } else {
      assert k * x <= 0;
      assert k * -x == -(k * x);
    }
  }

  lemma ScaleOrder(k: int, x: int, y: int)
    requires k > 0
    ensures x <= y <==> k * x <= k * y
    ensures x < y <==> k * x < k * y
  {
    assert k * x == x * k && k * y == y * k;
    if x < y {
      MulStep(x, y, k);
    } else if y < x {
      MulStep(y, x, k);
    }
  }

  lemma {:induction false} RoundIsMonotone(a: int, b: int, den: int)
    requires den > 0 && a <= b
    ensures Round(a, den) <= Round(b, den)
  {
    hide Round;
    var p, q := Round(a, den), Round(b, den);
    RoundIsNearest(a, den);
    RoundIsNearest(b, den);
    if q < p {
      MulStep(q, p, den);
      assert a == b;
    }
  }

  lemma {:induction false} RoundOfMultiple(q: int, den: int)
    requires den > 0
    ensures Round(q * den, den) == q
  {
    RoundIsNearest(q * den, den);
    NearestIsUnique(q * den, den, q, Round(q * den, den));
  }

  // ----- the text

  lemma {:induction false} PrintIsString(q: int)
    ensures Print(q) == String(q)
  {
    hide NatString, TrimRightZeros;
    if q == 0 {
      ZeroDigits();
      var digits := Pad(NatString(0));
      assert digits[..|digits| - SCALE] == "0";
      assert digits[|digits| - SCALE..] == "" + Repeat('0', SCALE);
      TrimZeros("", SCALE);
      assert "0" + "" == "0";
    }
  }

  /**
   `round` prints the canonical numeral that Amount.String prints for the rounded integer, and it reads back in range.
   */
  lemma {:induction false} RoundPrintsAmounts(value: Rational)
    ensures var q := Round(value.num * UNITS, value.den);
            && RoundText(value) == String(q)
            && Parse(RoundText(value)) == if InRange(q) then Ok(q) else Err(InvalidAmount)
  {
    hide Round, Parse, String, Print, InRange;
    var q := Round(value.num * UNITS, value.den);
    PrintIsString(q);
    ParseOfString(q);
  }

  // ----- conversion

  /** Converting is one rounding of the exact rational, refused when it needs more than sixteen integer digits. */
  lemma {:induction false} ConvertRounds(amount: int, from: Rational, to: Rational)
    requires from.num > 0 && to.num > 0
    ensures to.den * from.num > 0
    ensures var q := Round(amount * to.num * from.den, to.den * from.num);
            Convert(amount, false, Ok(from), Ok(to)) == if InRange(q) then Ok(q) else Err(Invalid(InvalidAmount))
  {
    hide Round, RoundText, Parse, InRange;
    var value := Multiply(Quotient(Rat(amount, UNITS), from), to);
    RoundPrintsAmounts(value);
    Positive(to.den, from.num);
    var num, den := amount * to.num * from.den, to.den * from.num;
    assert value.num == amount * from.den * to.num == num;
    assert value.den == (UNITS * from.num) * to.den == UNITS * den;
    ScaleInvariant(num, den, UNITS);
  }

  /** For stored rates f and t it is one rounding of amount * t / f. */
  lemma {:induction false} ConvertRoundsOnce(amount: int, f: int, t: int)
    requires f > 0 && t > 0
    ensures var q := Round(amount * t, f);
            Convert(amount, false, Ok(Rat(f, UNITS)), Ok(Rat(t, UNITS))) ==
            if InRange(q) then Ok(q) else Err(Invalid(InvalidAmount))
  {
    hide Round, Convert, InRange;
    ConvertRounds(amount, Rat(f, UNITS), Rat(t, UNITS));
    assert amount * t * UNITS == UNITS * (amount * t);
    ScaleInvariant(amount * t, f, UNITS);
  }

  /** The rounded integer is within half a unit of the exact value. */
  lemma {:induction false} RoundWithinHalf(num: int, den: int)
    requires den > 0
    ensures -0.5 <= Round(num, den) as real - num as real / den as real <= 0.5
  {
    hide Round;
    var q := Round(num, den);
    RoundIsNearest(num, den);
    var gap := q * den - num;
    assert -den <= 2 * gap <= den;
    assert (q as real - num as real / den as real) * den as real == gap as real;
    DivideBounds(q as real - num as real / den as real, den as real, gap as real);
  }

  lemma DivideBounds(x: real, d: real, g: real)
    requires d > 0.0 && x * d == g && -d <= 2.0 * g <= d
    ensures -0.5 <= x <= 0.5
  {
    assert x > 0.5 ==> (x - 0.5) * d > 0.0;
    assert x < -0.5 ==> (-0.5 - x) * d > 0.0;
  }

  lemma {:induction false} ErrorBound(amount: int, f: int, t: int)
    requires f > 0
    ensures 2 * Abs(amount * t - Round(amount * t, f) * f) <= f
  {
    RoundIsNearest(amount * t, f);
  }

  /** Into the currency with the larger rate and back: exactly the amount. */
  lemma {:induction false} RoundTripExact(amount: int, f: int, t: int)
    requires 0 < f <= t
    ensures Round(Round(amount * t, f) * f, t) == amount
  {
    var b := Round(amount * t, f);
    if f == t {
      RoundOfMultiple(amount, f);
      RoundOfMultiple(amount, t);
    } else {
      ErrorBound(amount, f, t);
      assert 2 * Abs(b * f - amount * t) < t;
      NearestIsUniqueAfter(b * f, t, amount);
    }
  }

  lemma {:induction false} NearestIsUniqueAfter(num: int, den: int, q: int)
    requires den > 0 && 2 * Abs(num - q * den) < den
    ensures Round(num, den) == q
  {
    RoundIsNearest(num, den);
    NearestIsUnique(num, den, q, Round(num, den));
  }

  /** Any pair of rates: there and back differs by at most (1 + f/t)/2 units. */
  lemma {:induction false} RoundTripBound(amount: int, f: int, t: int)
    requires f > 0 && t > 0
    ensures 2 * t * Abs(Round(Round(amount * t, f) * f, t) - amount) <= t + f
  {
    hide Round;
    var b := Round(amount * t, f);
    var c := Round(b * f, t);
    ErrorBound(amount, f, t);
    ErrorBound(b, t, f);
    var x, y, z := amount * t, b * f, c * t;
    assert 2 * Abs(z - x) <= t + f;
    assert z - x == t * (c - amount);
    ScaleAbs(t, c - amount);
    assert 2 * t * Abs(c - amount) == 2 * (t * Abs(c - amount));
  }

  // ----- the conversion between any two positive rates

  /** What an amount is multiplied by and divided by on the way from one rate to another. */
  function Factor(from: Rational, to: Rational): int {
    to.num * from.den
  }

  lemma FactorIsPositive(from: Rational, to: Rational)
    requires from.num > 0 && to.num > 0
    ensures Factor(from, to) > 0 && Factor(to, from) > 0
  {
    Positive(to.num, from.den);
    Positive(from.num, to.den);
  }

  /**
   Converting is one rounding of amount * Factor(from, to) / Factor(to, from), for any rates, the dollar's included.
   */
  lemma {:induction false} ConvertByFactor(amount: int, from: Rational, to: Rational)
    requires from.num > 0 && to.num > 0
    ensures Factor(to, from) > 0
    ensures var q := Round(amount * Factor(from, to), Factor(to, from));
            Convert(amount, false, Ok(from), Ok(to)) == if InRange(q) then Ok(q) else Err(Invalid(InvalidAmount))
  {
    hide Round, Convert, InRange;
    FactorIsPositive(from, to);
    ConvertRounds(amount, from, to);
    assert amount * to.num * from.den == amount * Factor(from, to);
    assert to.den * from.num == Factor(to, from);
  }

  /** There and back through Convert, with both results in range: exact into the larger rate, and bounded in general. */
  lemma {:induction false} ConvertRoundTrip(amount: int, from: Rational, to: Rational)
    requires from.num > 0 && to.num > 0
    requires Factor(to, from) > 0 && Factor(from, to) > 0
    requires InRange(Round(amount * Factor(from, to), Factor(to, from)))
    requires InRange(Round(Round(amount * Factor(from, to), Factor(to, from)) * Factor(to, from), Factor(from, to)))
    ensures var there := Convert(amount, false, Ok(from), Ok(to));
            && there.Ok?
            && var back := Convert(there.value, false, Ok(to), Ok(from));
               && back.Ok?
               && (Factor(to, from) <= Factor(from, to) ==> back.value == amount)
               && 2 * Factor(from, to) * Abs(back.value - amount) <= Factor(from, to) + Factor(to, from)
  {
    hide Round, Convert, InRange, Factor;
    var t, f := Factor(from, to), Factor(to, from);
    ConvertByFactor(amount, from, to);
    ConvertByFactor(Round(amount * t, f), to, from);
    RoundTripBound(amount, f, t);
    if f <= t {
      RoundTripExact(amount, f, t);
    }
  }

  /** Zero stays zero. */
  lemma {:induction false} ConvertKeepsZero(from: Rational, to: Rational)
    requires from.num > 0 && to.num > 0
    ensures Convert(0, false, Ok(from), Ok(to)) == Ok(0)
  {
    hide Round, Convert, Digits.Pow, Factor;
    ConvertByFactor(0, from, to);
    assert 0 * Factor(from, to) == 0 * Factor(to, from) == 0;
    RoundOfMultiple(0, Factor(to, from));
    Digits.PowGrows(10, 0, 24);
  }

  /** The opposite amount converts to the opposite result. */
  lemma {:induction false} ConvertIsOdd(a: int, from: Rational, to: Rational)
    requires from.num > 0 && to.num > 0
    ensures var there := Convert(a, false, Ok(from), Ok(to));
            Convert(-a, false, Ok(from), Ok(to)) == if there.Ok? then Ok(-there.value) else there
  {
    hide Round, Convert, Digits.Pow, Factor;
    ConvertByFactor(a, from, to);
    ConvertByFactor(-a, from, to);
    assert (-a) * Factor(from, to) == -(a * Factor(from, to));
    RoundIsOdd(a * Factor(from, to), Factor(to, from));
  }

  /** A larger amount never converts to less. */
  lemma {:induction false} ConvertIsMonotone(a: int, b: int, from: Rational, to: Rational)
    requires from.num > 0 && to.num > 0 && a <= b
    ensures var x, y := Convert(a, false, Ok(from), Ok(to)), Convert(b, false, Ok(from), Ok(to));
            x.Ok? && y.Ok? ==> x.value <= y.value
  {
    hide Round, Convert, InRange, Factor;
    FactorIsPositive(from, to);
    ConvertByFactor(a, from, to);
    ConvertByFactor(b, from, to);
    ScaleOrder(Factor(from, to), a, b);
    RoundIsMonotone(a * Factor(from, to), b * Factor(from, to), Factor(to, from));
  }

  /** A percentage is the canonical numeral of the nearest eight-decimal value, whatever the divisor's sign. */
  lemma {:induction false} PercentIsNearest(numerator: int, denominator: int)
    requires denominator != 0
    ensures exists q ::
              && Percent(numerator, denominator) == Ok(String(q))
              && Nearest((if denominator > 0 then numerator else -numerator) * 100 * UNITS, Abs(denominator), q)
  {
    hide String, RoundText, Round, Nearest;
    var value := Multiply(Quotient(Rat(numerator, UNITS), Rat(denominator, UNITS)), Rat(100, 1));
    var n := if denominator > 0 then numerator * 100 * UNITS else -numerator * 100 * UNITS;
    RoundPrintsAmounts(value);
    assert value.num * UNITS == UNITS * n && value.den == UNITS * Abs(denominator);
    ScaleInvariant(n, Abs(denominator), UNITS);
    RoundIsNearest(n, Abs(denominator));
    assert Percent(numerator, denominator) == Ok(String(Round(n, Abs(denominator))));
  }

  /**
   A quote is refused exactly when it is not positive; otherwise it is the numeral of the nearest eight-decimal value.
   */
  lemma {:induction false} NormalizeIsNearest(value: Rational)
    ensures Normalize(value) == Err(Unavailable) <==> value.num <= 0
    ensures value.num > 0 ==>
              exists q :: Normalize(value) == Ok(String(q)) && Nearest(value.num * UNITS, value.den, q) && q >= 0
  {
    hide String, RoundText, Round, Nearest;
    RoundPrintsAmounts(value);
    RoundIsNearest(value.num * UNITS, value.den);
    if value.num > 0 {
      RoundNotNegative(value.num * UNITS, value.den);
    }
  }

  lemma RoundNotNegative(num: int, den: int)
    requires num >= 0 && den > 0
    ensures Round(num, den) >= 0
  {
  }

  /** An amount in its own currency stays as it is; otherwise a missing rate is the error, the first side's first. */
  lemma ConvertWithoutRates(
      amount: int, fromRate: Result<Rational, FxError>, toRate: Result<Rational, FxError>)
    requires fromRate.Ok? ==> fromRate.value.num > 0
    requires toRate.Ok? ==> toRate.value.num > 0
    ensures Convert(amount, true, fromRate, toRate) == Ok(amount)
    ensures fromRate.Err? ==> Convert(amount, false, fromRate, toRate) == Err(fromRate.error)
    ensures fromRate.Ok? && toRate.Err? ==> Convert(amount, false, fromRate, toRate) == Err(toRate.error)
  {
    hide RoundText, Parse;
  }

  /** Only a zero divisor has no percentage. */
  lemma PercentRefusesZero(numerator: int, denominator: int)
    ensures Percent(numerator, denominator) == Err(DivideByZero) <==> denominator == 0
    ensures Percent(numerator, denominator).Ok? <==> denominator != 0
  {
    hide RoundText;
  }

  /** A positive quote becomes the text "0" exactly when it is below half a unit. */
  lemma {:induction false} NormalizeVanishesBelowHalf(value: Rational)
    ensures Normalize(value) == Ok("0") <==> 0 < value.num && 2 * (value.num * UNITS) < value.den
  {
    RoundPrintsAmounts(value);
    var q := Round(value.num * UNITS, value.den);
    if value.num > 0 {
      ParseOfString(q);
      ParseOfString(0);
      Digits.PowGrows(10, 0, 24);
      assert String(q) == "0" <==> q == 0;
      RoundIsNearest(value.num * UNITS, value.den);
      if 2 * (value.num * UNITS) < value.den {
        NearestIsUniqueAfter(value.num * UNITS, value.den, 0);
      }
    }
  }

  // ----- the assignments of the Go code

  /** `round`, updating its quotient in place. */
  method RoundInPlace(value: Rational) returns (result: string)
    ensures result == RoundText(value)
  {
    hide NatString, TrimRightZeros;
    var numerator, denominator := value.num * UNITS, value.den;
    var quotient := if numerator >= 0 then numerator / denominator else -((-numerator) / denominator);
    var remainder := if numerator >= 0 then numerator % denominator else -((-numerator) % denominator);
    var twice: int := Abs(remainder);
    twice := twice * 2;
    if twice >= denominator {
      if numerator >= 0 {
        quotient := quotient + 1;
      } else {
        quotient := quotient - 1;
      }
    }
    assert quotient == Round(numerator, denominator);
    var negative := quotient < 0;
    var absolute := NatString(Abs(quotient));
    if |absolute| <= SCALE {
      absolute := Repeat('0', SCALE + 1 - |absolute|) + absolute;
    }
    var integer, fraction := absolute[..|absolute| - SCALE], TrimRightZeros(absolute[|absolute| - SCALE..]);
    result := integer;
    if fraction != "" {
      result := result + "." + fraction;
    } else {
      assert integer + "" == integer;
    }
    if negative {
      return "-" + result;
    }
  }
}
