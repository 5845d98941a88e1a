/**
 * Decimal integers as Go's `strconv.Atoi` reads them and as `%d` / `strconv.Itoa`
 * writes them, on a 64-bit platform (Go's `int` is 64 bits wide there).
 */
module Strconv {

  const MaxInt: int := 0x7fff_ffff_ffff_ffff
  const MinInt: int := -0x8000_0000_0000_0000

  /** The error half of Atoi's result: none, strconv.ErrSyntax or strconv.ErrRange. */
  datatype NumError = NoError | ErrSyntax | ErrRange

  datatype Parsed = Parsed(value: int, err: NumError)

  predicate IsDigit(c: char) {
    '0' <= c <= '9'
  }

  predicate AllDigits(s: string) {
    forall i :: 0 <= i < |s| ==> IsDigit(s[i])
  }

  function DigitValue(c: char): nat
    requires IsDigit(c)
  {
    c as int - '0' as int
  }

  /** The number a non-empty run of decimal digits denotes. */
  function DigitsValue(s: string): nat
    requires AllDigits(s)
  {
    if s == [] then 0 else DigitsValue(s[..|s| - 1]) * 10 + DigitValue(s[|s| - 1])
  }

  /** The largest value ParseUint accepts for a 64-bit result, 2^64 - 1. */
  const MaxUint64: int := 0xffff_ffff_ffff_ffff

  /** The length of the run of decimal digits `s` starts with. */
  function DigitRun(s: string): (k: nat)
    ensures k <= |s| && AllDigits(s[..k])
    ensures k < |s| ==> !IsDigit(s[k])
  {
    if s == [] || !IsDigit(s[0]) then 0
    else
      var k := 1 + DigitRun(s[1..]);
      assert s[..k] == [s[0]] + s[1..][..k - 1];
      k
  }

  predicate HasSign(s: string) {
    |s| > 0 && (s[0] == '+' || s[0] == '-')
  }

  /** What follows the optional sign. */
  function Unsigned(s: string): string {
    if HasSign(s) then s[1..] else s
  }

  /** A well-formed decimal numeral: an optional sign, then at least one digit and nothing else. */
  predicate Numeral(s: string) {
    |Unsigned(s)| > 0 && AllDigits(Unsigned(s))
  }

  /** The number a numeral denotes, before any range check. */
  function SignedValue(s: string): int
    requires Numeral(s)
  {
    if HasSign(s) && s[0] == '-' then 0 - DigitsValue(Unsigned(s)) else DigitsValue(Unsigned(s))
  }

  /**
   * strconv.Atoi on a 64-bit platform. ParseUint reads the digits after the
   * sign from left to right and stops at the first byte that is not a digit
   * (a syntax error, value 0) or at the first digit that takes the value past
   * 2^64 - 1 (a range error), whichever comes first; ParseInt then clamps
   * anything outside the int range to the nearest bound with a range error.
   * (Atoi's fast path for inputs shorter than 19 bytes gives the same
   * results: such inputs cannot overflow.)
   */
  function Atoi(s: string): (r: Parsed)
    ensures MinInt <= r.value <= MaxInt
    ensures r.err == ErrSyntax ==> r.value == 0
    ensures r.err == ErrRange ==> r.value == MaxInt || r.value == MinInt
    ensures s == [] ==> r == Parsed(0, ErrSyntax)
    ensures r.err == NoError <==> Numeral(s) && MinInt <= SignedValue(s) <= MaxInt
    ensures r.err == NoError ==> r.value == SignedValue(s)
    ensures Numeral(s) && SignedValue(s) > MaxInt ==> r == Parsed(MaxInt, ErrRange)
    ensures Numeral(s) && SignedValue(s) < MinInt ==> r == Parsed(MinInt, ErrRange)
    ensures !Numeral(s) ==> r.err != NoError
  {
    var neg := HasSign(s) && s[0] == '-';
    var digits := Unsigned(s);
    var k := DigitRun(digits);
    AllDigitsRun(digits);
    assert digits[..|digits|] == digits;
    if k == 0 then Parsed(0, ErrSyntax)
    else if DigitsValue(digits[..k]) > MaxUint64 then
      (if neg then Parsed(MinInt, ErrRange) else Parsed(MaxInt, ErrRange))
    else if k < |digits| then Parsed(0, ErrSyntax)
    else
      assert digits[..k] == digits;
      var u := DigitsValue(digits);
      if !neg && u > MaxInt then Parsed(MaxInt, ErrRange)
      else if neg && u > 0 - MinInt then Parsed(MinInt, ErrRange)
      else Parsed(if neg then 0 - u else u, NoError)
  }

  /** A string of digits only is read to its end. */
  lemma AllDigitsRun(s: string)
    ensures AllDigits(s) ==> DigitRun(s) == |s|
  {
  }

  /** A prefix of a digit run denotes no more than the whole run. */
  lemma {:induction false} DigitsValuePrefix(s: string, j: nat)
    requires AllDigits(s) && j <= |s|
    ensures DigitsValue(s[..j]) <= DigitsValue(s)
    decreases |s| - j
  {
    if j < |s| {
      var init := s[..|s| - 1];
      assert AllDigits(init) && init[..j] == s[..j];
      assert DigitsValue(s) == DigitsValue(init) * 10 + DigitValue(s[|s| - 1]);
      DigitsValuePrefix(init, j);
    } else {
      assert s[..j] == s;
    }
  }

  /**
   * A digit run past 2^64 - 1 is a range error whatever follows it: the
   * overflow is met before any later byte that is not a digit.
   */
  lemma OverflowBeforeJunk(d: string, rest: string)
    requires |d| > 0 && AllDigits(d) && DigitsValue(d) > MaxUint64
    ensures Atoi(d + rest) == Parsed(MaxInt, ErrRange)
  {
    var s := d + rest;
    assert IsDigit(s[0]) && !HasSign(s);
    var k := DigitRun(s);
    assert forall i :: 0 <= i < |d| ==> IsDigit(s[i]);
    assert k >= |d|;
    assert s[..k][..|d|] == d;
    DigitsValuePrefix(s[..k], |d|);
  }

  function DigitChar(d: nat): (c: char)
    requires d < 10
    ensures IsDigit(c) && DigitValue(c) == d
  {
    ('0' as int + d) as char
  }

  /** The decimal digits of a natural number, without leading zeros. */
  function NatToString(n: nat): (s: string)
    ensures |s| >= 1 && AllDigits(s)
  {
    if n < 10 then [DigitChar(n)] else NatToString(n / 10) + [DigitChar(n % 10)]
  }

  /** `%d` formatting (strconv.Itoa): a minus sign for negatives, then the digits. */
  function Itoa(n: int): (s: string)
    ensures |s| >= 1
    ensures forall i :: 0 <= i < |s| ==> IsDigit(s[i]) || (i == 0 && s[i] == '-')
    ensures IsDigit(s[|s| - 1])
    ensures s[0] == '-' <==> n < 0
  {
    if n < 0 then "-" + NatToString(-n) else NatToString(n)
  }

  /** Reading the digits back gives the number. */
  lemma {:induction false} DigitsValueOfNatToString(n: nat)
    ensures DigitsValue(NatToString(n)) == n
  {
    if n >= 10 {
      var s := NatToString(n);
      assert s[..|s| - 1] == NatToString(n / 10);
      DigitsValueOfNatToString(n / 10);
    }
  }

  /** Two decimal digits read as a number. */
  lemma AtoiTwoDigits(s: string)
    requires |s| == 2 && IsDigit(s[0]) && IsDigit(s[1])
    ensures Atoi(s) == Parsed(DigitValue(s[0]) * 10 + DigitValue(s[1]), NoError)
  {
    assert AllDigits(s);
    assert s[..1][..0] == [];
    assert DigitsValue(s[..1]) == DigitValue(s[0]);
  }

  /** Round trip: Atoi reads back every int that Itoa writes, without error. */
  lemma AtoiOfItoa(n: int)
    requires MinInt <= n <= MaxInt
    ensures Atoi(Itoa(n)) == Parsed(n, NoError)
  {
    if n < 0 {
      AtoiOfNegative(n);
    } else {
      AtoiOfNatToString(n);
    }
  }

  lemma AtoiOfNatToString(n: nat)
    requires n <= MaxInt
    ensures Atoi(NatToString(n)) == Parsed(n, NoError)
  {
    var s := NatToString(n);
    assert IsDigit(s[0]) && !HasSign(s);
    DigitsValueOfNatToString(n);
  }

  lemma AtoiOfNegative(n: int)
    requires MinInt <= n < 0
    ensures Atoi(Itoa(n)) == Parsed(n, NoError)
  {
    var s := Itoa(n);
    assert s == "-" + NatToString(-n);
    assert s[0] == '-';
    assert s[1..] == NatToString(-n);
    DigitsValueOfNatToString(-n);
  }
}
