/** Positional notation in any base, most significant digit first, and the text helpers built on it. */
module Digits {

  /** The bases in use: decimal numerals, hexadecimal identifiers and base 64. */
  type Base = b: nat | b == 10 || b == 16 || b == 64 witness 10

  /** `high * base + digit`, spelled out per base so that it stays linear. */
  function Shift(high: nat, base: Base, digit: nat): nat {
    if base == 10 then high * 10 + digit else if base == 16 then high * 16 + digit else high * 64 + digit
  }

  function High(n: nat, base: Base): nat {
    if base == 10 then n / 10 else if base == 16 then n / 16 else n / 64
  }

  function Low(n: nat, base: Base): (digit: nat)
    ensures digit < base
  {
    if base == 10 then n % 10 else if base == 16 then n % 16 else n % 64
  }

  function Pow(base: Base, exponent: nat): (p: nat)
    ensures p >= 1
  {
    if exponent == 0 then 1 else Shift(Pow(base, exponent - 1), base, 0)
  }

  ghost predicate Below(digits: seq<nat>, base: Base) {
    forall i :: 0 <= i < |digits| ==> digits[i] < base
  }

  function Value(digits: seq<nat>, base: Base): nat {
    if digits == [] then 0
    else Shift(Value(digits[..|digits| - 1], base), base, digits[|digits| - 1])
  }

  /** Exactly `width` digits; higher ones are dropped. */
  function Fixed(n: nat, base: Base, width: nat): (digits: seq<nat>)
    ensures |digits| == width && Below(digits, base)
  {
    if width == 0 then [] else Fixed(High(n, base), base, width - 1) + [Low(n, base)]
  }

  /** As many digits as needed and at least one. */
  function Minimal(n: nat, base: Base): (digits: seq<nat>)
    ensures |digits| >= 1 && Below(digits, base)
    decreases n
  {
    if n < base then [n] else Minimal(High(n, base), base) + [Low(n, base)]
  }

  function Zeros(count: nat): (digits: seq<nat>)
    ensures |digits| == count
    ensures forall i :: 0 <= i < count ==> digits[i] == 0
  {
    seq(count, i => 0)
  }

  // ----- the two directions

  lemma SplitDigit(n: nat, high: nat, digit: nat, base: Base)
    requires digit < base
    ensures Shift(High(n, base), base, Low(n, base)) == n
    ensures High(Shift(high, base, digit), base) == high && Low(Shift(high, base, digit), base) == digit
    ensures n < Shift(high, base, 0) <==> High(n, base) < high
  {
  }

  lemma {:induction false} ValueOfFixed(n: nat, base: Base, width: nat)
    requires n < Pow(base, width)
    ensures Value(Fixed(n, base, width), base) == n
  {
    if width > 0 {
      SplitDigit(n, Pow(base, width - 1), 0, base);
      ValueOfFixed(High(n, base), base, width - 1);
      assert Fixed(n, base, width)[..width - 1] == Fixed(High(n, base), base, width - 1);
    }
  }

  lemma {:induction false} FixedOfValue(digits: seq<nat>, base: Base)
    requires Below(digits, base)
    ensures Value(digits, base) < Pow(base, |digits|)
    ensures Fixed(Value(digits, base), base, |digits|) == digits
  {
    if digits != [] {
      var high, low := digits[..|digits| - 1], digits[|digits| - 1];
      FixedOfValue(high, base);
      SplitDigit(Shift(Value(high, base), base, low), Pow(base, |high|), 0, base);
      SplitDigit(0, Value(high, base), low, base);
      assert digits == high + [low];
    }
  }

  lemma {:induction false} FixedOfZero(base: Base, width: nat)
    ensures Fixed(0, base, width) == Zeros(width)
  {
    if width > 0 {
      FixedOfZero(base, width - 1);
    }
  }

  lemma {:induction false} MinimalPadsToFixed(n: nat, base: Base, width: nat)
    requires width >= 1 && n < Pow(base, width)
    ensures |Minimal(n, base)| <= width
    ensures Fixed(n, base, width) == Zeros(width - |Minimal(n, base)|) + Minimal(n, base)
  {
    if n < base {
      assert High(n, base) == 0 && Low(n, base) == n;
      FixedOfZero(base, width - 1);
    } else {
      SplitDigit(n, Pow(base, width - 1), 0, base);
      assert width > 1;
      MinimalPadsToFixed(High(n, base), base, width - 1);
    }
  }

  lemma {:induction false} MinimalHasNoLeadingZero(n: nat, base: Base)
    requires n > 0
    ensures Minimal(n, base)[0] != 0
    decreases n
  {
    if n >= base {
      MinimalHasNoLeadingZero(High(n, base), base);
    }
  }

  lemma {:induction false} ValueOfMinimal(n: nat, base: Base)
    ensures Value(Minimal(n, base), base) == n
    decreases n
  {
    if n >= base {
      ValueOfMinimal(High(n, base), base);
      SplitDigit(n, 0, 0, base);
      assert Minimal(n, base)[..|Minimal(n, base)| - 1] == Minimal(High(n, base), base);
    } else {
      assert Value([n][..0], base) == 0;
    }
  }

  lemma {:induction false} PowGrows(base: Base, low: nat, high: nat)
    requires low <= high
    ensures Pow(base, low) <= Pow(base, high)
    decreases high
  {
    if low < high {
      PowGrows(base, low, high - 1);
    }
  }

  /** A number has at most `width` digits exactly when it is below the power. */
  lemma {:induction false} MinimalLength(n: nat, base: Base, width: nat)
    requires width >= 1
    ensures |Minimal(n, base)| <= width <==> n < Pow(base, width)
  {
    if n < Pow(base, width) {
      MinimalPadsToFixed(n, base, width);
    } else if |Minimal(n, base)| <= width {
      FixedOfValue(Minimal(n, base), base);
      ValueOfMinimal(n, base);
      PowGrows(base, |Minimal(n, base)|, width);
    }
  }

  /** Leading zeros do not change a value. */
  lemma {:induction false} ValueIgnoresLeadingZeros(zeros: nat, digits: seq<nat>, base: Base)
    ensures Value(Zeros(zeros) + digits, base) == Value(digits, base)
    decreases |digits|, zeros
  {
    var all := Zeros(zeros) + digits;
    if digits != [] {
      assert all[..|all| - 1] == Zeros(zeros) + digits[..|digits| - 1];
      ValueIgnoresLeadingZeros(zeros, digits[..|digits| - 1], base);
    } else if zeros > 0 {
      assert all[..|all| - 1] == Zeros(zeros - 1) + digits;
      ValueIgnoresLeadingZeros(zeros - 1, digits, base);
    }
  }

  // ----- text

  /** `strings.Split` with a one-character separator. */
  function Split(s: string, separator: char): (parts: seq<string>)
    ensures |parts| >= 1
  {
    if s == "" then [""]
    else
      var rest := Split(s[1..], separator);
      if s[0] == separator then [""] + rest else [[s[0]] + rest[0]] + rest[1..]
  }

  lemma {:induction false} SplitWithout(s: string, separator: char)
    requires separator !in s
    ensures Split(s, separator) == [s]
  {
    if s != "" {
      SplitWithout(s[1..], separator);
      assert [s[0]] + s[1..] == s;
    }
  }

  lemma {:induction false} SplitOnce(left: string, right: string, separator: char)
    requires separator !in left
    ensures Split(left + [separator] + right, separator) == [left] + Split(right, separator)
  {
    var s := left + [separator] + right;
    if left == "" {
      assert s[1..] == right;
    } else {
      assert s[1..] == left[1..] + [separator] + right;
      SplitOnce(left[1..], right, separator);
      assert [s[0]] + left[1..] == left;
    }
  }
}
