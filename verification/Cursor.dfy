/** Page cursors: a date and an identifier as text, in unpadded URL-safe base 64 (section 5 of RFC 4648). */
module Cursor {
  import opened Prelude
  import opened Digits
  import opened Calendar
  import Money

  // ----- base 64

  function Symbol(digit: nat): char
    requires digit < 64
  {
    if digit < 26 then 'A' + digit as char
    else if digit < 52 then 'a' + (digit - 26) as char
    else if digit < 62 then '0' + (digit - 52) as char
    else if digit == 62 then '-' else '_'
  }

  function SymbolDigit(c: char): (digit: Option<nat>)
    ensures digit.Some? ==> digit.value < 64
  {
    if 'A' <= c <= 'Z' then Some((c - 'A') as nat)
    else if 'a' <= c <= 'z' then Some((c - 'a') as nat + 26)
    else if '0' <= c <= '9' then Some((c - '0') as nat + 52)
    else if c == '-' then Some(62)
    else if c == '_' then Some(63)
    else None
  }

  function Symbols(digits: seq<nat>): (s: string)
    requires Below(digits, 64)
    ensures |s| == |digits|
  {
    seq(|digits|, i requires 0 <= i < |digits| => Symbol(digits[i]))
  }

  function SymbolsValue(s: string): Option<nat> {
    if s == "" then Some(0)
    else
      var high, low := SymbolsValue(s[..|s| - 1]), SymbolDigit(s[|s| - 1]);
      if high.Some? && low.Some? then Some(Shift(high.value, 64, low.value)) else None
  }

  type Byte = b: nat | b < 256

  function Packed(a: nat, b: nat, c: nat): nat {
    a * 65536 + b * 256 + c
  }

  /** Groups of three bytes become four symbols; one or two bytes left over become two or three. */
  function Encode(bytes: seq<Byte>): string {
    if |bytes| == 0 then ""
    else if |bytes| == 1 then Symbols(Fixed(Packed(bytes[0], 0, 0) / 4096, 64, 2))
    else if |bytes| == 2 then Symbols(Fixed(Packed(bytes[0], bytes[1], 0) / 64, 64, 3))
    else Symbols(Fixed(Packed(bytes[0], bytes[1], bytes[2]), 64, 4)) + Encode(bytes[3..])
  }

  function ThreeBytes(n: nat): seq<Byte> {
    [n / 65536 % 256, n / 256 % 256, n % 256]
  }

  /** Spare bits of a last group of two or three symbols are ignored, as the decoder does. */
  function DecodeGroups(s: string): Option<seq<Byte>> {
    if |s| == 0 then Some([])
    else if |s| == 1 then None
    else if |s| == 2 then
      var n := SymbolsValue(s);
      if n.None? then None else Some([n.value / 16 % 256])
    else if |s| == 3 then
      var n := SymbolsValue(s);
      if n.None? then None else Some([n.value / 1024 % 256, n.value / 4 % 256])
    else
      var n, rest := SymbolsValue(s[..4]), DecodeGroups(s[4..]);
      if n.None? || rest.None? then None else Some(ThreeBytes(n.value) + rest.value)
  }

  /** The decoder skips line ends. */
  function SkipLineEnds(s: string): string {
    if s == "" then ""
    else (if s[0] == '\n' || s[0] == '\r' then "" else [s[0]]) + SkipLineEnds(s[1..])
  }

  function Decode(s: string): Option<seq<Byte>> {
    DecodeGroups(SkipLineEnds(s))
  }

  predicate Ascii(s: string) {
    forall i :: 0 <= i < |s| ==> s[i] as int < 128
  }

  function Bytes(s: string): seq<Byte>
    requires Ascii(s)
  {
    seq(|s|, i requires 0 <= i < |s| => s[i] as nat)
  }

  function FromBytes(bytes: seq<Byte>): string {
    seq(|bytes|, i requires 0 <= i < |bytes| => bytes[i] as char)
  }

  // ----- dates and identifiers

  function Decimal(n: nat, width: nat): string {
    Money.Text(Fixed(n, 10, width))
  }

  /** Years print with at least four digits. */
  function YearText(year: int): string {
    if 0 <= year < 10000 then Decimal(year, 4)
    else if year >= 10000 then Money.NatString(year)
    else "-" + (if -year < 10000 then Decimal(-year, 4) else Money.NatString(-year))
  }

  function DateText(d: Date): string {
    YearText(d.year) + "-" + Decimal(d.month, 2) + "-" + Decimal(d.day, 2)
  }

  function DecimalValue(s: string): Option<nat> {
    if Money.AllDigits(s) then Some(Money.NatValue(s)) else None
  }

  /** `time.Parse("2006-01-02", s)`. */
  function ParseDate(s: string): Option<Date> {
    if |s| != 10 || s[4] != '-' || s[7] != '-' then None
    else
      var year, month, day := DecimalValue(s[..4]), DecimalValue(s[5..7]), DecimalValue(s[8..]);
      if year.None? || month.None? || day.None? then None
      else
        var d := Civil(year.value, month.value, day.value);
        if IsDate(d) then Some(d) else None
  }

  function HexDigit(digit: nat): char
    requires digit < 16
  {
    if digit < 10 then '0' + digit as char else 'a' + (digit - 10) as char
  }

  function HexValue(c: char): (digit: Option<nat>)
    ensures digit.Some? ==> digit.value < 16
  {
    if '0' <= c <= '9' then Some((c - '0') as nat)
    else if 'a' <= c <= 'f' then Some((c - 'a') as nat + 10)
    else if 'A' <= c <= 'F' then Some((c - 'A') as nat + 10)
    else None
  }

  /** An identifier is a 128-bit number. */
  predicate IsUuid(n: nat) {
    n < Pow(16, 32)
  }

  predicate DashAt(i: nat) {
    i == 8 || i == 13 || i == 18 || i == 23
  }

  /** Which of the 32 hexadecimal digits stands at a character position. */
  function DigitAt(i: nat): (j: nat)
    requires i < 36 && !DashAt(i)
    ensures j < 32
  {
    if i < 8 then i else if i < 13 then i - 1 else if i < 18 then i - 2 else if i < 23 then i - 3 else i - 4
  }

  function CharAt(j: nat): (i: nat)
    requires j < 32
    ensures i < 36 && !DashAt(i) && DigitAt(i) == j
  {
    if j < 8 then j else if j < 12 then j + 1 else if j < 16 then j + 2 else if j < 20 then j + 3 else j + 4
  }

  function UuidText(n: nat): string {
    var digits := Fixed(n, 16, 32);
    seq(36, i requires 0 <= i < 36 => if DashAt(i) then '-' else HexDigit(digits[DigitAt(i)]))
  }

  /** `uuid.Parse` on the 36-character form. */
  function ParseUuid(s: string): Option<nat> {
    if |s| != 36 || !(forall i: nat :: i < 36 && DashAt(i) ==> s[i] == '-') then None
    else if !(forall j: nat :: j < 32 ==> HexValue(s[CharAt(j)]).Some?) then None
    else Some(Value(seq(32, j requires 0 <= j < 32 => HexValue(s[CharAt(j)]).value), 16))
  }

  // ----- cursors

  datatype CursorError = InvalidCursor

  function CursorText(d: Date, id: nat): (s: string)
    ensures Ascii(s)
  {
    YearTextIsPlain(d.year);
    DateText(d) + "|" + UuidText(id)
  }

  function EncodeLedgerCursor(d: Date, id: nat): string {
    Encode(Bytes(CursorText(d, id)))
  }

  function DecodeLedgerCursor(cursor: string): Result<(Date, nat), CursorError> {
    var decoded := Decode(cursor);
    if decoded.None? then Err(InvalidCursor)
    else
      var parts := Split(FromBytes(decoded.value), '|');
      if |parts| != 2 then Err(InvalidCursor)
      else
        var date, id := ParseDate(parts[0]), ParseUuid(parts[1]);
        if date.None? || id.None? then Err(InvalidCursor) else Ok((date.value, id.value))
  }

  // ----- base 64 round trip

  lemma SymbolRoundTrip(digit: nat)
    requires digit < 64
    ensures SymbolDigit(Symbol(digit)) == Some(digit)
    ensures Symbol(digit) != '\n' && Symbol(digit) != '\r'
  {
  }

  lemma {:induction false} SymbolsRoundTrip(digits: seq<nat>)
    requires Below(digits, 64)
    ensures SymbolsValue(Symbols(digits)) == Some(Value(digits, 64))
  {
    if digits != [] {
      var s := Symbols(digits);
      assert s[..|s| - 1] == Symbols(digits[..|digits| - 1]);
      SymbolsRoundTrip(digits[..|digits| - 1]);
      SymbolRoundTrip(digits[|digits| - 1]);
    }
  }

  lemma {:induction false} GroupRoundTrip(n: nat, width: nat)
    requires n < Pow(64, width)
    ensures SymbolsValue(Symbols(Fixed(n, 64, width))) == Some(n)
  {
    SymbolsRoundTrip(Fixed(n, 64, width));
    ValueOfFixed(n, 64, width);
  }

  lemma Powers()
    ensures Pow(64, 2) == 4096 && Pow(64, 3) == 262144 && Pow(64, 4) == 16777216
  {
    assert Pow(64, 0) == 1 && Pow(64, 1) == 64;
    assert Pow(64, 2) == 4096;
  }

  lemma Unpack(a: nat, b: nat, c: nat)
    requires a < 256 && b < 256 && c < 256
    ensures Packed(a, 0, 0) / 4096 < 4096 && Packed(a, 0, 0) / 4096 / 16 % 256 == a
    ensures var n := Packed(a, b, 0) / 64; n < 262144 && n / 1024 % 256 == a && n / 4 % 256 == b
    ensures var n := Packed(a, b, c); n < 16777216 && n / 65536 % 256 == a && n / 256 % 256 == b && n % 256 == c
  {
  }

  lemma {:induction false} DecodeOfEncode(bytes: seq<Byte>)
    ensures DecodeGroups(Encode(bytes)) == Some(bytes)
  {
    hide SymbolsValue, Fixed, Symbols, Packed, Pow;
    Powers();
    var s := Encode(bytes);
    if |bytes| == 0 {
    } else if |bytes| == 1 {
      Unpack(bytes[0], 0, 0);
      GroupRoundTrip(Packed(bytes[0], 0, 0) / 4096, 2);
      assert [bytes[0]] == bytes;
    } else if |bytes| == 2 {
      Unpack(bytes[0], bytes[1], 0);
      GroupRoundTrip(Packed(bytes[0], bytes[1], 0) / 64, 3);
      assert [bytes[0], bytes[1]] == bytes;
    } else {
      var n := Packed(bytes[0], bytes[1], bytes[2]);
      Unpack(bytes[0], bytes[1], bytes[2]);
      GroupRoundTrip(n, 4);
      DecodeOfEncode(bytes[3..]);
      assert s[..4] == Symbols(Fixed(n, 64, 4)) && s[4..] == Encode(bytes[3..]);
      assert ThreeBytes(n) + bytes[3..] == bytes;
    }
  }

  lemma {:induction false} NoLineEnds(bytes: seq<Byte>)
    ensures '\n' !in Encode(bytes) && '\r' !in Encode(bytes)
  {
    if |bytes| >= 3 {
      NoLineEnds(bytes[3..]);
    }
  }

  lemma {:induction false} SkipNothing(s: string)
    requires '\n' !in s && '\r' !in s
    ensures SkipLineEnds(s) == s
  {
    if s != "" {
      SkipNothing(s[1..]);
    }
  }

  lemma {:induction false} Base64RoundTrip(text: string)
    requires Ascii(text)
    ensures var decoded := Decode(Encode(Bytes(text))); decoded.Some? && FromBytes(decoded.value) == text
  {
    var bytes := Bytes(text);
    DecodeOfEncode(bytes);
    NoLineEnds(bytes);
    SkipNothing(Encode(bytes));
    assert FromBytes(bytes) == text;
  }

  // ----- date and identifier round trips

  lemma {:induction false} DecimalRoundTrip(n: nat, width: nat)
    requires n < Pow(10, width)
    ensures Money.AllDigits(Decimal(n, width)) && |Decimal(n, width)| == width
    ensures DecimalValue(Decimal(n, width)) == Some(n)
  {
    Money.DigitsOfText(Fixed(n, 10, width));
    ValueOfFixed(n, 10, width);
  }

  lemma TensPowers()
    ensures Pow(10, 2) == 100 && Pow(10, 4) == 10000
  {
    assert Pow(10, 0) == 1 && Pow(10, 1) == 10;
    assert Pow(10, 2) == 100 && Pow(10, 3) == 1000;
  }

  predicate Plain(s: string) {
    forall i :: 0 <= i < |s| ==> Money.IsDigit(s[i]) || s[i] == '-'
  }

  /** A year is four digits exactly when it lies in 0 to 9999; otherwise its text is longer. */
  lemma {:induction false} YearTextIsPlain(year: int)
    ensures Plain(YearText(year))
    ensures if 0 <= year < 10000 then |YearText(year)| == 4 else |YearText(year)| > 4
  {
    TensPowers();
    if year >= 10000 {
      MinimalLength(year, 10, 4);
    } else if year <= -10000 {
      MinimalLength(-year, 10, 4);
    }
  }

  lemma {:induction false} DateRoundTrip(d: Date)
    ensures Plain(DateText(d))
    ensures ParseDate(DateText(d)) == if 0 <= d.year < 10000 then Some(d) else None
  {
    hide Fixed, Money.NatValue;
    TensPowers();
    YearTextIsPlain(d.year);
    DecimalRoundTrip(d.month, 2);
    DecimalRoundTrip(d.day, 2);
    var s := DateText(d);
    if 0 <= d.year < 10000 {
      DecimalRoundTrip(d.year, 4);
      assert s[..4] == YearText(d.year) && s[5..7] == Decimal(d.month, 2) && s[8..] == Decimal(d.day, 2);
    }
  }

  lemma HexRoundTrip(digit: nat)
    requires digit < 16
    ensures HexValue(HexDigit(digit)) == Some(digit)
  {
  }

  lemma {:induction false} UuidRoundTrip(n: nat)
    requires IsUuid(n)
    ensures ParseUuid(UuidText(n)) == Some(n)
  {
    hide Fixed;
    var digits, s := Fixed(n, 16, 32), UuidText(n);
    forall j: nat | j < 32
      ensures HexValue(s[CharAt(j)]) == Some(digits[j])
    {
      HexRoundTrip(digits[j]);
    }
    assert seq(32, j requires 0 <= j < 32 => HexValue(s[CharAt(j)]).value) == digits;
    ValueOfFixed(n, 16, 32);
  }

  lemma NoBar(d: Date, id: nat)
    ensures '|' !in DateText(d) && '|' !in UuidText(id)
  {
    DateRoundTrip(d);
  }

  /** A cursor decodes to the date and identifier it encodes exactly when the year has four digits. */
  lemma {:induction false} CursorRoundTrip(d: Date, id: nat)
    requires IsUuid(id)
    ensures DecodeLedgerCursor(EncodeLedgerCursor(d, id)) ==
            if 0 <= d.year < 10000 then Ok((d, id)) else Err(InvalidCursor)
  {
    hide Encode, Decode, DateText, UuidText, ParseDate, ParseUuid, Split;
    var text := CursorText(d, id);
    Base64RoundTrip(text);
    NoBar(d, id);
    assert text == DateText(d) + ['|'] + UuidText(id);
    SplitOnce(DateText(d), UuidText(id), '|');
    SplitWithout(UuidText(id), '|');
    DateRoundTrip(d);
    UuidRoundTrip(id);
  }
}
