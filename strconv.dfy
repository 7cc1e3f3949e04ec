/**
 * The parts of Go's `strconv` the services rely on: `ParseUint(s, 10, 64)`,
 * `Itoa`, and the `int(uint)` conversion used before `Itoa` on 64-bit
 * platforms.
 */
module Strconv {

  const UINT64_LIMIT: int := 0x1_0000_0000_0000_0000
  const MAX_UINT64: int := UINT64_LIMIT - 1
  const INT64_LIMIT: int := 0x8000_0000_0000_0000

  /** Go's `uint` / `uint64` on a 64-bit platform. */
  type Uint = x: int | 0 <= x < UINT64_LIMIT

  predicate IsDigit(c: char) { '0' <= c <= '9' }

  predicate AllDigits(s: string) { forall i :: 0 <= i < |s| ==> IsDigit(s[i]) }

  function DigitValue(c: char): (d: nat)
    requires IsDigit(c)
    ensures d < 10
  {
    (c as int) - ('0' as int)
  }

  function DigitChar(d: nat): (c: char)
    requires d < 10
    ensures IsDigit(c) && DigitValue(c) == d
  {
    (('0' as int) + d) as char
  }

  /** The number a digit string denotes when read after the prefix value `acc`. */
  function Value(acc: nat, s: string): (v: nat)
    requires AllDigits(s)
    ensures v >= acc
    ensures s != [] ==> v >= acc * 10 + DigitValue(s[0])
    decreases s
  {
    if s == [] then acc else Value(acc * 10 + DigitValue(s[0]), s[1..])
  }

  /** The outcome of `strconv.ParseUint`: the value, or which `NumError` it reports. */
  datatype ParseOutcome = Parsed(value: Uint) | SyntaxError | RangeError

  /**
   * The digit loop of `ParseUint` for base 10: left to right, so the first
   * fault met decides between a syntax and a range error.
   */
  function Scan(s: string, acc: Uint): (r: ParseOutcome)
    ensures r.Parsed? <==> AllDigits(s) && Value(acc, s) <= MAX_UINT64
    ensures r.Parsed? ==> r.value == Value(acc, s)
    decreases s
  {
    if s == [] then Parsed(acc)
    else if !IsDigit(s[0]) then SyntaxError
    else if acc * 10 + DigitValue(s[0]) > MAX_UINT64 then RangeError
    else Scan(s[1..], acc * 10 + DigitValue(s[0]))
  }

  /** `strconv.ParseUint(s, 10, 64)`: no sign, no prefix, no underscores. */
  function ParseUint(s: string): (r: ParseOutcome)
    ensures r.Parsed? <==> s != [] && AllDigits(s) && Value(0, s) <= MAX_UINT64
    ensures r.Parsed? ==> r.value == Value(0, s)
    ensures s != [] && !IsDigit(s[0]) ==> r == SyntaxError
  {
    if s == [] then SyntaxError else Scan(s, 0)
  }

  /**
   * The number `ParseUint` returns beside its error: 0 on a syntax error and
   * the largest `uint64` on a range error.
   */
  function ReturnedValue(r: ParseOutcome): Uint
  {
    match r
    case Parsed(v) => v
    case SyntaxError => 0
    case RangeError => MAX_UINT64
  }

  /** Decimal digits of a natural number, most significant first. */
  function NatToDecimal(n: nat): (s: string)
    ensures s != []
  {
    if n < 10 then [DigitChar(n)] else NatToDecimal(n / 10) + [DigitChar(n % 10)]
  }

  /** `strconv.Itoa`. */
  function Itoa(i: int): string
  {
    if i < 0 then "-" + NatToDecimal(-i) else NatToDecimal(i)
  }

  /** `int(u)` for a 64-bit `uint`: values from 2^63 on wrap to negatives. */
  function ToInt(u: Uint): (i: int)
    ensures u < INT64_LIMIT ==> i == u
    ensures u >= INT64_LIMIT ==> i < 0
  {
    if u < INT64_LIMIT then u else u - UINT64_LIMIT
  }

  lemma {:induction false} ValueAppend(acc: nat, s: string, c: char)
    requires AllDigits(s) && IsDigit(c)
    ensures AllDigits(s + [c]) && Value(acc, s + [c]) == Value(acc, s) * 10 + DigitValue(c)
    decreases s
  {
    if s != [] {
      assert (s + [c])[1..] == s[1..] + [c];
      ValueAppend(acc * 10 + DigitValue(s[0]), s[1..], c);
    }
  }

  /** A digit string whose value exceeds 64 bits is a range error, whatever the digits. */
  lemma {:induction false} OverflowIsRange(s: string, acc: Uint)
    requires AllDigits(s) && Value(acc, s) > MAX_UINT64
    ensures Scan(s, acc) == RangeError
    decreases s
  {
    if s != [] && acc * 10 + DigitValue(s[0]) <= MAX_UINT64 {
      OverflowIsRange(s[1..], acc * 10 + DigitValue(s[0]));
    }
  }

  /** `NatToDecimal` writes only digits, and reading them back gives the number. */
  lemma {:induction false} DecimalValue(n: nat)
    ensures AllDigits(NatToDecimal(n)) && Value(0, NatToDecimal(n)) == n
  {
    if n >= 10 {
      DecimalValue(n / 10);
      ValueAppend(0, NatToDecimal(n / 10), DigitChar(n % 10));
    }
  }

  /**
   * The id string a caller builds with `strconv.Itoa(int(id))` parses back to
   * `id` exactly when `id < 2^63`; from 2^63 on the string carries a minus
   * sign and `ParseUint` reports a syntax error.
   */
  lemma ItoaParseRoundTrip(id: Uint)
    ensures ParseUint(Itoa(ToInt(id))) == if id < INT64_LIMIT then Parsed(id) else SyntaxError
  {
    if id < INT64_LIMIT {
      DecimalValue(id);
    } else {
      assert Itoa(ToInt(id))[0] == '-';
    }
  }
}
