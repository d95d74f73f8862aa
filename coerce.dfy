/**
 * Coercion of the loosely typed fields of a history record into display text
 * (`toString`) and the empty/non-empty split of timestamp rendering
 * (`formatISO8601`).
 */
module Coerce {

  /** A JSON value decoded into an empty interface: absent (nil), a string,
      a float64, an int, or anything else, which carries its `%v` rendering. */
  datatype Loose = Absent | Str(s: string) | Float(r: real) | Int(i: int) | Other(shown: string)

  /** Text that is the rendering of `time.Unix(ts, 0)` in the machine's local
      time zone with the layout "2006-01-02 15:04:05-07:00". The calendar
      arithmetic and the zone lookup are not modelled; the layout always
      yields text, which is all the model relies on. */
  type DateRenderer = f: int -> string | forall ts :: f(ts) != ""
    witness (ts: int) => "1970-01-01 00:00:00+00:00"

  predicate IsDigit(c: char) {
    '0' <= c <= '9'
  }

  function DigitChar(d: nat): (c: char)
    requires d < 10
    ensures IsDigit(c) && (c as int) - ('0' as int) == d
  {
    (('0' as int) + d) as char
  }

  function DigitValue(c: char): nat
    requires IsDigit(c)
  {
    (c as int) - ('0' as int)
  }

  /** A non-empty run of digits with no superfluous leading zero. */
  predicate IsCanonicalDigits(s: string) {
    && |s| >= 1
    && (forall i :: 0 <= i < |s| ==> IsDigit(s[i]))
    && (|s| > 1 ==> s[0] != '0')
  }

  /** What `strconv.Itoa` produces: an optional minus sign, then canonical digits. */
  predicate IsDecimal(s: string) {
    if |s| > 0 && s[0] == '-' then IsCanonicalDigits(s[1..]) && s[1..] != "0"
    else IsCanonicalDigits(s)
  }

  /** Decimal digits of a natural number, most significant first. */
  function NatToDecimal(n: nat): (s: string)
    ensures IsCanonicalDigits(s)
    ensures (s == "0") == (n == 0)
    decreases n
  {
    if n < 10 then [DigitChar(n)]
    else NatToDecimal(n / 10) + [DigitChar(n % 10)]
  }

  /** The value of a run of digits, read most significant first. */
  function DigitsValue(s: string): nat
    requires forall i :: 0 <= i < |s| ==> IsDigit(s[i])
  {
    if s == [] then 0
    else 10 * DigitsValue(s[..|s| - 1]) + DigitValue(s[|s| - 1])
  }

  /** `strconv.Itoa`: the decimal form of an integer. */
  function IntToDecimal(i: int): (s: string)
    ensures IsDecimal(s)
  {
    if i < 0 then
      var digits := NatToDecimal(-i);
      assert ("-" + digits)[1..] == digits;
      "-" + digits
    else NatToDecimal(i)
  }

  /** Reading a decimal back: the inverse of IntToDecimal. */
  function DecimalValue(s: string): int
    requires IsDecimal(s)
  {
    if |s| > 0 && s[0] == '-' then -(DigitsValue(s[1..]) as int) else DigitsValue(s)
  }

  lemma {:induction false} NatToDecimalRoundTrip(n: nat)
    ensures DigitsValue(NatToDecimal(n)) == n
    decreases n
  {
    var s := NatToDecimal(n);
    if n >= 10 {
      NatToDecimalRoundTrip(n / 10);
      assert s[..|s| - 1] == NatToDecimal(n / 10);
    }
  }

  /** Printing an integer and reading it back gives the integer: the decimal
      form loses nothing, so distinct integers print differently. */
  lemma IntToDecimalRoundTrip(i: int)
    ensures DecimalValue(IntToDecimal(i)) == i
  {
    if i < 0 {
      NatToDecimalRoundTrip(-i);
      assert IntToDecimal(i)[1..] == NatToDecimal(-i);
    } else {
      NatToDecimalRoundTrip(i);
    }
  }

  /** Go's conversion `int(val)` of a float64: truncation toward zero. */
  function TruncateTowardZero(r: real): (i: int)
    ensures r >= 0.0 ==> 0 <= i && i as real <= r < i as real + 1.0
    ensures r < 0.0 ==> i <= 0 && i as real - 1.0 < r <= i as real
  {
    if r >= 0.0 then r.Floor else -((-r).Floor)
  }

  /** `toString`: nil gives "", a string is kept, an int or a float64 is
      printed as an integer (a float64 truncated toward zero), and anything
      else keeps its `%v` rendering. */
  function ToDisplayString(v: Loose): (s: string)
    ensures v.Absent? ==> s == ""
    ensures v.Str? ==> s == v.s
    ensures v.Other? ==> s == v.shown
    ensures v.Int? ==> IsDecimal(s) && DecimalValue(s) == v.i
    ensures v.Float? ==> IsDecimal(s) && DecimalValue(s) == TruncateTowardZero(v.r)
  {
    match v
    case Absent => ""
    case Str(x) => x
    case Float(r) =>
      IntToDecimalRoundTrip(TruncateTowardZero(r));
      IntToDecimal(TruncateTowardZero(r))
    case Int(i) =>
      IntToDecimalRoundTrip(i);
      IntToDecimal(i)
    case Other(shown) => shown
  }

  /** `formatISO8601`: the zero timestamp means "no date" and renders as the
      empty string; every other timestamp renders as a non-empty date. */
  function FormatIso8601(ts: int, render: DateRenderer): (s: string)
    ensures (s == "") <==> (ts == 0)
    ensures ts != 0 ==> s == render(ts)
  {
    if ts == 0 then "" else render(ts)
  }
}
