/**
 Exact money: an amount is an integer count of 10^-8 units, read and printed as a decimal numeral.
 */
module Money {
  import opened Prelude
  import opened Digits

  const SCALE: nat := 8
  const MAX_INTEGER_DIGITS: nat := 16

  datatype MoneyError = InvalidAmount

  // ----- numerals as text

  predicate IsDigit(c: char) {
    '0' <= c <= '9'
  }

  predicate AllDigits(s: string) {
    forall i :: 0 <= i < |s| ==> IsDigit(s[i])
  }

  function Text(digits: seq<nat>): (s: string)
    requires Below(digits, 10)
    ensures |s| == |digits| && AllDigits(s)
  {
    seq(|digits|, i requires 0 <= i < |digits| => '0' + digits[i] as char)
  }

  function DigitsOf(s: string): (digits: seq<nat>)
    requires AllDigits(s)
    ensures |digits| == |s| && Below(digits, 10)
  {
    seq(|s|, i requires 0 <= i < |s| => (s[i] - '0') as nat)
  }

  function NatString(n: nat): string {
    Text(Minimal(n, 10))
  }

  function NatValue(s: string): nat
    requires AllDigits(s)
  {
    Value(DigitsOf(s), 10)
  }

  function Repeat(c: char, count: nat): (s: string)
    ensures |s| == count && forall i :: 0 <= i < count ==> s[i] == c
  {
    seq(count, i => c)
  }

  function TrimRightZeros(s: string): (t: string)
    ensures |t| <= |s|
  {
    if s != "" && s[|s| - 1] == '0' then TrimRightZeros(s[..|s| - 1]) else s
  }

  // ----- the parser

  predicate IsSpace(c: char) {
    c == ' ' || ('\t' <= c <= '\r') || c as int == 0x85 || c as int == 0xA0
  }

  /** `strings.TrimSpace(value) != value` for a non-empty value. */
  predicate HasOuterSpace(s: string)
    requires s != ""
  {
    IsSpace(s[0]) || IsSpace(s[|s| - 1])
  }

  function Parse(value: string): Result<int, MoneyError> {
    if value == "" || HasOuterSpace(value) || 'e' in value || 'E' in value || '+' in value then Err(InvalidAmount)
    else
      var negative := value[0] == '-';
      var unsigned := if negative then value[1..] else value;
      var parts := Split(unsigned, '.');
      if |parts| > 2 || parts[0] == "" || |parts[0]| > MAX_INTEGER_DIGITS || !AllDigits(parts[0])
        then Err(InvalidAmount)
      else if |parts[0]| > 1 && parts[0][0] == '0' then Err(InvalidAmount)
      else if |parts| == 2 && (parts[1] == "" || |parts[1]| > SCALE || !AllDigits(parts[1])) then Err(InvalidAmount)
      else
        var fraction := if |parts| == 2 then parts[1] else "";
        var scaled: int := NatValue(parts[0] + fraction + Repeat('0', SCALE - |fraction|));
        Ok(if negative then -scaled else scaled)
  }

  // ----- the printer

  function Abs(n: int): nat {
    if n < 0 then -n else n
  }

  /** At least nine digits, so that one stands before the point. */
  function Pad(s: string): (t: string)
    ensures |t| > SCALE
  {
    if |s| <= SCALE then Repeat('0', SCALE + 1 - |s|) + s else s
  }

  function Unsigned(n: nat): string {
    var digits := Pad(NatString(n));
    var point := |digits| - SCALE;
    var fraction := TrimRightZeros(digits[point..]);
    digits[..point] + (if fraction == "" then "" else "." + fraction)
  }

  function String(amount: int): string {
    if amount == 0 then "0"
    else if amount < 0 then "-" + Unsigned(Abs(amount))
    else Unsigned(amount)
  }

  /** The text of a numeric(24, 8) column: always eight decimals. */
  function NumericText(amount: int): string {
    var digits := Pad(NatString(Abs(amount)));
    var point := |digits| - SCALE;
    (if amount < 0 then "-" else "") + digits[..point] + "." + digits[point..]
  }

  /** What a numeric(24, 8) column and Parse can hold: sixteen digits before the point. */
  predicate InRange(amount: int) {
    Abs(amount) < Pow(10, 24)
  }

  function AmountStringsEqual(left: string, right: string): bool {
    var a, b := Parse(left), Parse(right);
    a.Ok? && b.Ok? && String(a.value) == String(b.value)
  }

  // ----- digits and text

  lemma TextOfDigits(s: string)
    requires AllDigits(s)
    ensures Text(DigitsOf(s)) == s
  {
  }

  lemma DigitsOfText(digits: seq<nat>)
    requires Below(digits, 10)
    ensures DigitsOf(Text(digits)) == digits
  {
  }

  lemma ZeroText(count: nat, s: string)
    requires AllDigits(s)
    ensures AllDigits(Repeat('0', count) + s)
    ensures DigitsOf(Repeat('0', count) + s) == Zeros(count) + DigitsOf(s)
  {
  }

  ghost predicate Padded(s: string) {
    AllDigits(s) && |s| > SCALE && (|s| == SCALE + 1 || s[0] != '0')
  }

  /** The padded digits of n carry exactly its value, with no zero too many. */
  lemma {:induction false} PadKeepsValue(n: nat)
    ensures var s := Pad(NatString(n)); Padded(s) && NatValue(s) == n && (|s| <= 24 <==> n < Pow(10, 24))
  {
    var digits := Minimal(n, 10);
    ValueOfMinimal(n, 10);
    DigitsOfText(digits);
    MinimalLength(n, 10, 24);
    if |digits| <= SCALE {
      ZeroText(SCALE + 1 - |digits|, Text(digits));
      ValueIgnoresLeadingZeros(SCALE + 1 - |digits|, digits, 10);
    } else {
      assert n > 0;
      MinimalHasNoLeadingZero(n, 10);
    }
  }

  /** Padded digits are determined by their value. */
  lemma {:induction false} PadIsUnique(s: string)
    requires Padded(s)
    ensures Pad(NatString(NatValue(s))) == s
  {
    hide Value, Minimal, Fixed, Pow;
    var digits := DigitsOf(s);
    var n := NatValue(s);
    FixedOfValue(digits, 10);
    MinimalPadsToFixed(n, 10, |s|);
    TextOfDigits(s);
    var short := Minimal(n, 10);
    ZeroText(|s| - |short|, Text(short));
    DigitsOfText(short);
    assert digits == Zeros(|s| - |short|) + short;
    assert |short| < |s| ==> digits[0] == 0;
    assert s == Repeat('0', |s| - |short|) + Text(short);
  }

  lemma {:induction false} TrimRestores(s: string)
    requires AllDigits(s)
    ensures AllDigits(TrimRightZeros(s))
    ensures TrimRightZeros(s) + Repeat('0', |s| - |TrimRightZeros(s)|) == s
    ensures TrimRightZeros(s) != "" ==> TrimRightZeros(s)[|TrimRightZeros(s)| - 1] != '0'
  {
    if s != "" && s[|s| - 1] == '0' {
      TrimRestores(s[..|s| - 1]);
    }
  }

  lemma {:induction false} TrimZeros(s: string, count: nat)
    requires s != "" ==> s[|s| - 1] != '0'
    ensures TrimRightZeros(s + Repeat('0', count)) == s
  {
    var all := s + Repeat('0', count);
    if count > 0 {
      assert all[..|all| - 1] == s + Repeat('0', count - 1);
      TrimZeros(s, count - 1);
    } else {
      assert all == s;
    }
  }

  // ----- the grammar

  /** A sign, an integer part and a fraction part; an empty fraction has no point. */
  function Numeral(negative: bool, integer: string, fraction: string): string {
    (if negative then "-" else "") + integer + (if fraction == "" then "" else "." + fraction)
  }

  ghost predicate Shape(integer: string, fraction: string) {
    && AllDigits(integer) && 1 <= |integer| <= MAX_INTEGER_DIGITS && (|integer| == 1 || integer[0] != '0')
    && AllDigits(fraction) && |fraction| <= SCALE
  }

  lemma {:induction false} SplitNumeral(integer: string, fraction: string)
    requires AllDigits(integer) && AllDigits(fraction)
    ensures Split(Numeral(false, integer, fraction), '.') == if fraction == "" then [integer] else [integer, fraction]
  {
    if fraction == "" {
      assert Numeral(false, integer, fraction) == integer;
      SplitWithout(integer, '.');
    } else {
      assert Numeral(false, integer, fraction) == integer + ['.'] + fraction;
      SplitOnce(integer, fraction, '.');
      SplitWithout(fraction, '.');
    }
  }

  /** A numeral passes the parser's first tests, and losing its sign leaves the unsigned numeral. */
  lemma {:induction false} NumeralScans(negative: bool, integer: string, fraction: string)
    requires AllDigits(integer) && integer != "" && AllDigits(fraction)
    ensures var value := Numeral(negative, integer, fraction);
            && value != "" && !HasOuterSpace(value) && 'e' !in value && 'E' !in value && '+' !in value
            && (value[0] == '-' <==> negative)
            && (if negative then value[1..] else value) == Numeral(false, integer, fraction)
  {
    var value := Numeral(negative, integer, fraction);
    var rest := Numeral(false, integer, fraction);
    assert rest == integer + (if fraction == "" then "" else "." + fraction);
    assert value == if negative then "-" + rest else rest;
    assert IsDigit(rest[0]) && IsDigit(rest[|rest| - 1]);
    forall c | c in value
      ensures IsDigit(c) || c == '.' || c == '-'
    {
    }
  }

  /** Reading a numeral, whatever its parts. */
  lemma {:induction false} ParseNumeral(negative: bool, integer: string, fraction: string)
    requires AllDigits(integer) && integer != "" && AllDigits(fraction)
    ensures Parse(Numeral(negative, integer, fraction)) ==
            if Shape(integer, fraction) then
              var scaled: int := NatValue(integer + fraction + Repeat('0', SCALE - |fraction|));
              Ok(if negative then -scaled else scaled)
            else Err(InvalidAmount)
  {
    hide Split, NatValue, Numeral, HasOuterSpace;
    NumeralScans(negative, integer, fraction);
    SplitNumeral(integer, fraction);
    assert fraction == "" ==> integer + "" == integer + fraction;
  }

  /** The parts of a string split at its points, put together again. */
  lemma {:induction false} PartsAreNumeral(unsigned: string, integer: string, fraction: string)
    requires var parts := Split(unsigned, '.');
             || (parts == [integer] && fraction == "")
             || (parts == [integer, fraction] && fraction != "")
    ensures unsigned == Numeral(false, integer, fraction)
  {
    hide Split;
    JoinParts(unsigned, '.');
  }

  lemma NoDigits()
    ensures AllDigits("")
  {
  }

  lemma SignInFront(integer: string, fraction: string)
    ensures Numeral(true, integer, fraction) == "-" + Numeral(false, integer, fraction)
  {
    assert "" + integer == integer;
    assert ("-" + integer) + (if fraction == "" then "" else "." + fraction)
        == "-" + (integer + (if fraction == "" then "" else "." + fraction));
  }

  /** An accepted string, taken apart. */
  lemma {:induction false} AcceptedParts(value: string) returns (negative: bool, integer: string, fraction: string)
    requires Parse(value).Ok?
    ensures Shape(integer, fraction) && value == Numeral(negative, integer, fraction)
  {
    hide NatValue, Split, HasOuterSpace, Numeral, Repeat, AllDigits;
    negative := value[0] == '-';
    var unsigned := if negative then value[1..] else value;
    var parts := Split(unsigned, '.');
    integer, fraction := parts[0], if |parts| == 2 then parts[1] else "";
    assert |parts| == 1 ==> parts == [integer];
    assert |parts| == 2 ==> parts == [integer, fraction];
    assert AllDigits(fraction) by {
      NoDigits();
    }
    PartsAreNumeral(unsigned, integer, fraction);
    SignInFront(integer, fraction);
    assert negative ==> value == "-" + unsigned;
  }

  /** A string is accepted exactly when it is a numeral of the documented shape. */
  lemma {:induction false} AcceptsExactly(value: string)
    ensures Parse(value).Ok? <==>
            exists negative, integer, fraction :: Shape(integer, fraction)
              && value == Numeral(negative, integer, fraction)
  {
    hide Parse, Shape, Numeral;
    if Parse(value).Ok? {
      var negative, integer, fraction := AcceptedParts(value);
    }
    if negative, integer, fraction :| Shape(integer, fraction) && value == Numeral(negative, integer, fraction) {
      ShapedIsAccepted(negative, integer, fraction);
    }
  }

  lemma {:induction false} ShapedIsAccepted(negative: bool, integer: string, fraction: string)
    requires Shape(integer, fraction)
    ensures Parse(Numeral(negative, integer, fraction)).Ok?
  {
    hide Parse, Numeral;
    ParseNumeral(negative, integer, fraction);
  }

  lemma {:induction false} JoinParts(s: string, separator: char)
    ensures var parts := Split(s, separator);
            && (|parts| == 1 ==> s == parts[0])
            && (|parts| == 2 ==> s == parts[0] + [separator] + parts[1])
  {
    if s != "" {
      JoinParts(s[1..], separator);
    }
  }

  // ----- round trips

  lemma {:induction false} ZeroDigits()
    ensures Pad(NatString(0)) == "0" + Repeat('0', SCALE) && NatValue(Pad(NatString(0))) == 0
  {
    PadKeepsValue(0);
    assert NatString(0) == "0";
  }

  /** The parts that String prints. */
  lemma {:induction false} UnsignedIsNumeral(n: nat)
    ensures var digits := Pad(NatString(n)); var point := |digits| - SCALE;
            && Padded(digits) && NatValue(digits) == n
            && Unsigned(n) == Numeral(false, digits[..point], TrimRightZeros(digits[point..]))
  {
    PadKeepsValue(n);
  }

  lemma {:induction false} StringIsNumeral(amount: int)
    ensures var digits := Pad(NatString(Abs(amount))); var point := |digits| - SCALE;
            && Padded(digits) && NatValue(digits) == Abs(amount)
            && String(amount) == Numeral(amount < 0, digits[..point], TrimRightZeros(digits[point..]))
  {
    hide Unsigned, NatValue, NatString, Pad, Padded, TrimRightZeros;
    var digits := Pad(NatString(Abs(amount)));
    var point := |digits| - SCALE;
    UnsignedIsNumeral(Abs(amount));
    ZeroDigits();
    if amount == 0 {
      assert digits == "0" + Repeat('0', SCALE);
      assert digits[point..] == "" + Repeat('0', SCALE);
      TrimZeros("", SCALE);
    } else if amount < 0 {
      SignInFront(digits[..point], TrimRightZeros(digits[point..]));
    }
  }

  /** Printing then reading gives the amount back exactly when it has at most sixteen integer digits. */
  lemma {:induction false} ParseOfString(amount: int)
    ensures Parse(String(amount)) == if InRange(amount) then Ok(amount) else Err(InvalidAmount)
  {
    hide Parse, String, NatString, NatValue, TrimRightZeros, Pow, Pad;
    var digits := Pad(NatString(Abs(amount)));
    var point := |digits| - SCALE;
    var integer, fraction := digits[..point], TrimRightZeros(digits[point..]);
    StringIsNumeral(amount);
    PadKeepsValue(Abs(amount));
    TrimRestores(digits[point..]);
    ParseNumeral(amount < 0, integer, fraction);
    assert integer + fraction + Repeat('0', SCALE - |fraction|)
        == integer + (fraction + Repeat('0', SCALE - |fraction|)) == digits;
  }

  /** A column's text reads back as the column's amount. */
  lemma {:induction false} ParseOfNumericText(amount: int)
    ensures Parse(NumericText(amount)) == if InRange(amount) then Ok(amount) else Err(InvalidAmount)
  {
    hide Parse, NatString, NatValue, Pow, Pad;
    var digits := Pad(NatString(Abs(amount)));
    var point := |digits| - SCALE;
    PadKeepsValue(Abs(amount));
    assert NumericText(amount) == Numeral(amount < 0, digits[..point], digits[point..]);
    ParseNumeral(amount < 0, digits[..point], digits[point..]);
    assert digits[..point] + digits[point..] + Repeat('0', 0) == digits;
  }

  /** Every accepted string is in range. */
  lemma {:induction false} ParseInRange(value: string)
    requires Parse(value).Ok?
    ensures InRange(Parse(value).value)
  {
    hide Parse, Numeral, Fixed;
    var negative, integer, fraction := AcceptedParts(value);
    ParseNumeral(negative, integer, fraction);
    var all := integer + fraction + Repeat('0', SCALE - |fraction|);
    FixedOfValue(DigitsOf(all), 10);
    PowGrows(10, |all|, 24);
  }

  /** No leading or trailing zero, no bare point, no negative zero. */
  ghost predicate CanonicalParts(negative: bool, integer: string, fraction: string) {
    && Shape(integer, fraction)
    && (fraction != "" ==> fraction[|fraction| - 1] != '0')
    && (negative ==> integer != "0" || fraction != "")
  }

  ghost predicate Canonical(s: string) {
    exists negative, integer, fraction ::
      CanonicalParts(negative, integer, fraction) && s == Numeral(negative, integer, fraction)
  }

  lemma {:induction false} StringIsCanonical(amount: int)
    requires InRange(amount)
    ensures Canonical(String(amount))
  {
    hide String, NatString, NatValue, Pad, Pow, TrimRightZeros, Numeral;
    var digits := Pad(NatString(Abs(amount)));
    var point := |digits| - SCALE;
    var integer, fraction := digits[..point], TrimRightZeros(digits[point..]);
    StringIsNumeral(amount);
    PadKeepsValue(Abs(amount));
    TrimRestores(digits[point..]);
    ZeroDigits();
    assert integer + (fraction + Repeat('0', SCALE - |fraction|)) == digits;
    assert integer == "0" && fraction == "" ==> digits == Pad(NatString(0)) by {
      assert "" + Repeat('0', SCALE) == Repeat('0', SCALE);
    }
    assert CanonicalParts(amount < 0, integer, fraction);
  }

  /** The digits of a canonical numeral are the padded digits of its value. */
  lemma {:induction false} CanonicalDigits(integer: string, fraction: string)
    requires Shape(integer, fraction) && (fraction != "" ==> fraction[|fraction| - 1] != '0')
    ensures var all := integer + fraction + Repeat('0', SCALE - |fraction|);
            && Pad(NatString(NatValue(all))) == all
            && |all| - SCALE == |integer| && all[..|integer|] == integer
            && TrimRightZeros(all[|integer|..]) == fraction
            && (NatValue(all) == 0 <==> integer == "0" && fraction == "")
  {
    hide NatString, NatValue, Pad, TrimRightZeros;
    var tail := fraction + Repeat('0', SCALE - |fraction|);
    var all := integer + fraction + Repeat('0', SCALE - |fraction|);
    assert all == integer + tail;
    assert AllDigits(all);
    PadIsUnique(all);
    TrimZeros(fraction, SCALE - |fraction|);
    assert all[|integer|..] == tail;
    ZeroDigits();
    assert integer == "0" && fraction == "" ==> all == "0" + Repeat('0', SCALE);
    if NatValue(all) == 0 {
      assert all == "0" + Repeat('0', SCALE);
      assert tail == "" + Repeat('0', SCALE);
      TrimZeros("", SCALE);
    }
  }

  /** A canonical numeral is what String prints for its value: there is one canonical numeral per amount. */
  lemma {:induction false} CanonicalIsUnique(s: string)
    requires Canonical(s)
    ensures Parse(s).Ok? && String(Parse(s).value) == s
  {
    hide Parse, String, NatString, NatValue, Pad, Pow, TrimRightZeros, Numeral;
    var negative, integer, fraction :|
      CanonicalParts(negative, integer, fraction) && s == Numeral(negative, integer, fraction);
    ParseNumeral(negative, integer, fraction);
    CanonicalDigits(integer, fraction);
    StringIsNumeral(Parse(s).value);
  }

  /** The staleness test on texts is equality of the values they denote. */
  lemma {:induction false} EqualStringsExactly(left: string, right: string)
    ensures AmountStringsEqual(left, right) <==>
            Parse(left).Ok? && Parse(right).Ok? && Parse(left).value == Parse(right).value
  {
    if Parse(left).Ok? && Parse(right).Ok? {
      ParseInRange(left);
      ParseInRange(right);
      ParseOfString(Parse(left).value);
      ParseOfString(Parse(right).value);
    }
  }

  // ----- the loops and assignments of the Go code

  method IsAllDigits(value: string) returns (ok: bool)
    ensures ok <==> AllDigits(value)
  {
    for i := 0 to |value|
      invariant AllDigits(value[..i])
    {
      if value[i] < '0' || value[i] > '9' {
        return false;
      }
    }
    assert value[..|value|] == value;
    return true;
  }

  method ParseAmount(value: string) returns (result: Result<int, MoneyError>)
    ensures result == Parse(value)
  {
    if value == "" || HasOuterSpace(value) || 'e' in value || 'E' in value || '+' in value {
      return Err(InvalidAmount);
    }
    var negative := value[0] == '-';
    var unsigned := if negative then value[1..] else value;
    var parts := Split(unsigned, '.');
    var integerOk := IsAllDigits(parts[0]);
    if |parts| > 2 || parts[0] == "" || |parts[0]| > MAX_INTEGER_DIGITS || !integerOk {
      return Err(InvalidAmount);
    }
    if |parts[0]| > 1 && parts[0][0] == '0' {
      return Err(InvalidAmount);
    }
    var fraction := "";
    if |parts| == 2 {
      fraction := parts[1];
      var fractionOk := IsAllDigits(fraction);
      if fraction == "" || |fraction| > SCALE || !fractionOk {
        return Err(InvalidAmount);
      }
    }
    var digitsValue := parts[0] + fraction + Repeat('0', SCALE - |fraction|);
    var scaled: int := NatValue(digitsValue);
    if negative {
      scaled := -scaled;
    }
    return Ok(scaled);
  }

  method PaddedDigits(n: nat) returns (digits: string)
    ensures digits == Pad(NatString(n))
  {
    digits := NatString(n);
    if |digits| <= SCALE {
      digits := Repeat('0', SCALE + 1 - |digits|) + digits;
    }
  }

  method FormatAmount(amount: int) returns (result: string)
    ensures result == String(amount)
  {
    hide NatString, TrimRightZeros, Pad;
    if amount == 0 {
      return "0";
    }
    var digitsValue := PaddedDigits(Abs(amount));
    var integer := digitsValue[..|digitsValue| - SCALE];
    var fraction := TrimRightZeros(digitsValue[|digitsValue| - SCALE..]);
    result := integer;
    if fraction != "" {
      result := result + "." + fraction;
    } else {
      assert integer + "" == integer;
    }
    assert result == Unsigned(Abs(amount));
    if amount < 0 {
      result := "-" + result;
    }
  }
}
