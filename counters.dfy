/** The counter parser shared by the three crawlers (`stringToInt`): keep the
    decimal digits of a scraped text, in order, and read them as a number with
    Go's `strconv.Atoi`, whose error panics the process. */
module Counters {

  /** The two ways `strconv.Atoi` can fail on a string made only of digits. */
  datatype ParseError = InvalidSyntax | OutOfRange

  datatype Result<T> = Ok(value: T) | Err(error: ParseError)

  /** Largest value of Go's `int` on a 64-bit platform. */
  const MaxInt: nat := 0x7fff_ffff_ffff_ffff

  predicate IsDigit(c: char) {
    '0' <= c <= '9'
  }

  predicate AllDigits(s: string) {
    forall i | 0 <= i < |s| :: IsDigit(s[i])
  }

  function DigitValue(c: char): (v: nat)
    requires IsDigit(c)
    ensures v < 10
  {
    c as int - '0' as int
  }

  function DigitChar(v: nat): (c: char)
    requires v < 10
    ensures IsDigit(c) && DigitValue(c) == v
  {
    ('0' as int + v) as char
  }

  function Pow10(k: nat): (p: nat)
    ensures p >= 1
  {
    if k == 0 then 1 else 10 * Pow10(k - 1)
  }

  /** The matches of the pattern `[0-9]`, joined in order. */
  function KeepDigits(s: string): (d: string)
    ensures AllDigits(d) && |d| <= |s|
  {
    if s == [] then []
    else
      var last := s[|s| - 1];
      KeepDigits(s[..|s| - 1]) + (if IsDigit(last) then [last] else [])
  }

  /** The number a string of decimal digits denotes, most significant first. */
  function DecimalValue(d: string): (v: nat)
    requires AllDigits(d)
    ensures v < Pow10(|d|)
  {
    if d == [] then 0 else DecimalValue(d[..|d| - 1]) * 10 + DigitValue(d[|d| - 1])
  }

  /** `stringToInt`: the empty text is 0; otherwise the digits are parsed by
      `strconv.Atoi`, which rejects the empty digit string and values that do
      not fit in an `int`. */
  function StringToInt(s: string): (r: Result<nat>)
    ensures r.Ok? ==> r.value <= MaxInt
    ensures s == "" ==> r == Ok(0)
  {
    if s == "" then Ok(0)
    else
      var digits := KeepDigits(s);
      if digits == "" then Err(InvalidSyntax)
      else if DecimalValue(digits) > MaxInt then Err(OutOfRange)
      else Ok(DecimalValue(digits))
  }

  /** The decimal rendering of a natural number (what `strconv.Itoa` prints). */
  function Decimal(n: nat): (d: string)
    ensures d != [] && AllDigits(d)
  {
    if n < 10 then [DigitChar(n)] else Decimal(n / 10) + [DigitChar(n % 10)]
  }

  lemma {:induction false} KeepDigitsAppend(a: string, b: string)
    ensures KeepDigits(a + b) == KeepDigits(a) + KeepDigits(b)
    decreases |b|
  {
    if b == [] {
      assert a + b == a;
    } else {
      var b' := b[..|b| - 1];
      assert (a + b)[..|a + b| - 1] == a + b';
      assert (a + b)[|a + b| - 1] == b[|b| - 1];
      KeepDigitsAppend(a, b');
    }
  }

  /** A string of digits is left as it is. */
  lemma {:induction false} KeepDigitsOfDigits(d: string)
    requires AllDigits(d)
    ensures KeepDigits(d) == d
  {
    if d != [] {
      KeepDigitsOfDigits(d[..|d| - 1]);
    }
  }

  lemma {:induction false} DecimalValueAppend(a: string, b: string)
    requires AllDigits(a) && AllDigits(b)
    ensures AllDigits(a + b)
    ensures DecimalValue(a + b) == DecimalValue(a) * Pow10(|b|) + DecimalValue(b)
    decreases |b|
  {
    if b == [] {
      assert a + b == a;
    } else {
      var b' := b[..|b| - 1];
      assert (a + b)[..|a + b| - 1] == a + b';
      DecimalValueAppend(a, b');
      var x, p, y, last := DecimalValue(a), Pow10(|b'|), DecimalValue(b'), DigitValue(b[|b| - 1]);
      assert DecimalValue(a + b) == (x * p + y) * 10 + last;
      assert DecimalValue(b) == y * 10 + last;
      assert Pow10(|b|) == p * 10;
      ShiftDigit(x, p, y, last);
    }
  }

  lemma ShiftDigit(x: int, p: int, y: int, last: int)
    ensures (x * p + y) * 10 + last == x * (p * 10) + (y * 10 + last)
  {
  }

  /** Leading zeros do not change the value, as with `strconv.Atoi`. */
  lemma LeadingZeroIgnored(d: string)
    requires AllDigits(d)
    ensures AllDigits("0" + d) && DecimalValue("0" + d) == DecimalValue(d)
  {
    assert DecimalValue("0") == 0 by {
      assert "0"[..0] == [];
    }
    DecimalValueAppend("0", d);
  }

  lemma {:induction false} DecimalValueOfDecimal(n: nat)
    ensures DecimalValue(Decimal(n)) == n
  {
    var d := Decimal(n);
    if n < 10 {
      assert d[..0] == [];
    } else {
      assert d[..|d| - 1] == Decimal(n / 10);
      DecimalValueOfDecimal(n / 10);
    }
  }

  /** Round trip: parsing the printed form of any `int`-sized count gives it back. */
  lemma StringToIntOfDecimal(n: nat)
    requires n <= MaxInt
    ensures StringToInt(Decimal(n)) == Ok(n)
  {
    KeepDigitsOfDigits(Decimal(n));
    DecimalValueOfDecimal(n);
  }

  /** Separators, units and other non-digit characters inside a non-empty
      text are ignored: "1,234 views" parses as "1234". */
  lemma StringToIntIgnoresNonDigit(a: string, c: char, b: string)
    requires !IsDigit(c) && a + b != ""
    ensures StringToInt(a + [c] + b) == StringToInt(a + b)
  {
    assert [c][..0] == [];
    assert KeepDigits([c]) == [];
    KeepDigitsAppend(a, [c]);
    assert KeepDigits(a + [c]) == KeepDigits(a);
    KeepDigitsAppend(a + [c], b);
    KeepDigitsAppend(a, b);
    assert KeepDigits(a + [c] + b) == KeepDigits(a + b);
  }

  /** A non-empty text with no digit at all is an error (`strconv.Atoi("")`). */
  lemma {:induction false} DigitlessTextFails(s: string)
    requires s != "" && forall i | 0 <= i < |s| :: !IsDigit(s[i])
    ensures StringToInt(s) == Err(InvalidSyntax)
  {
    NoDigitsKept(s);
  }

  lemma {:induction false} NoDigitsKept(s: string)
    requires forall i | 0 <= i < |s| :: !IsDigit(s[i])
    ensures KeepDigits(s) == ""
  {
    if s != [] {
      NoDigitsKept(s[..|s| - 1]);
    }
  }

  /** A non-empty text keeps its value when reduced to its digits, provided it has any. */
  lemma StringToIntOfKeptDigits(s: string)
    requires KeepDigits(s) != ""
    ensures StringToInt(KeepDigits(s)) == StringToInt(s)
  {
    KeepDigitsOfDigits(KeepDigits(s));
  }

  /** Texts with at most 18 digits never overflow, so they parse whenever they have a digit. */
  lemma {:induction false} ShortCountersParse(s: string)
    requires KeepDigits(s) != "" && |KeepDigits(s)| <= 18
    ensures StringToInt(s) == Ok(DecimalValue(KeepDigits(s)))
  {
    Pow10Monotone(|KeepDigits(s)|, 18);
    assert Pow10(3) == 1000;
    Pow10Add(3, 3);
    Pow10Add(6, 3);
    Pow10Add(9, 9);
    assert Pow10(18) == 1_000_000_000_000_000_000;
  }

  lemma {:induction false} Pow10Add(i: nat, j: nat)
    ensures Pow10(i + j) == Pow10(i) * Pow10(j)
    decreases j
  {
    if j > 0 {
      Pow10Add(i, j - 1);
    }
  }

  lemma {:induction false} Pow10Monotone(i: nat, j: nat)
    requires i <= j
    ensures Pow10(i) <= Pow10(j)
    decreases j
  {
    if i < j {
      Pow10Monotone(i, j - 1);
    }
  }
}
