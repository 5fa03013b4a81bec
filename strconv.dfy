/**
 * Go's base-10, 64-bit integer conversions as the reconciler uses them:
 * `strconv.ParseInt(s, 10, 64)` (port keys and host ports) and the `%d`
 * verb of `fmt.Sprintf` (backend keys and frontend binds).
 *
 * ParseInt returns a value and an error together, as Go does: a syntax
 * error comes with 0, an out-of-range number with the nearest int64 bound.
 */
module Strconv {
  import opened Wrappers

  const MaxUint64: nat := 0xFFFF_FFFF_FFFF_FFFF
  const MaxInt64: int := 0x7FFF_FFFF_FFFF_FFFF
  const MinInt64: int := -0x8000_0000_0000_0000

  /** Go's int64. */
  type Int64 = x: int | -0x8000_0000_0000_0000 <= x <= 0x7FFF_FFFF_FFFF_FFFF

  datatype NumError = ErrSyntax | ErrRange

  /** The pair `(value, err)` that ParseInt returns. */
  datatype Parsed = Parsed(value: Int64, err: Option<NumError>)

  predicate IsDigit(c: char) { '0' <= c <= '9' }

  function DigitValue(c: char): (d: nat)
    requires IsDigit(c)
    ensures d < 10
  {
    c as int - '0' as int
  }

  predicate AllDigits(s: string) { forall i | 0 <= i < |s| :: IsDigit(s[i]) }

  /** The number a string of decimal digits denotes (most significant first). */
  function DecValue(s: string): nat
    requires AllDigits(s)
  {
    if s == [] then 0 else DecValue(s[..|s| - 1]) * 10 + DigitValue(s[|s| - 1])
  }

  /** Go's ParseUint stops with a range error once n*10 would overflow. */
  const UintCutoff: nat := MaxUint64 / 10 + 1

  /**
   * The digit loop of Go's ParseUint for base 10: scans s[i..] left to
   * right with accumulator n; the first bad character or the first
   * overflow decides the error.
   */
  function ScanUint(s: string, i: nat, n: nat): (r: (nat, Option<NumError>))
    requires i <= |s| && n <= MaxUint64
    ensures r.1 == Some(ErrSyntax) ==> r.0 == 0
    ensures r.1 == Some(ErrRange) ==> r.0 == MaxUint64
    ensures r.0 <= MaxUint64
    decreases |s| - i
  {
    if i == |s| then (n, None)
    else if !IsDigit(s[i]) then (0, Some(ErrSyntax))
    else if n >= UintCutoff then (MaxUint64, Some(ErrRange))
    else
      var n1 := n * 10 + DigitValue(s[i]);
      if n1 > MaxUint64 then (MaxUint64, Some(ErrRange)) else ScanUint(s, i + 1, n1)
  }

  /** `strconv.ParseUint(s, 10, 64)`. */
  function ParseUint(s: string): (nat, Option<NumError>)
  {
    if s == "" then (0, Some(ErrSyntax)) else ScanUint(s, 0, 0)
  }

  /** `strconv.ParseInt(s, 10, 64)`: an optional sign, then ParseUint, then the int64 range check. */
  function ParseInt(s: string): Parsed
  {
    if s == "" then Parsed(0, Some(ErrSyntax))
    else
      var neg := s[0] == '-';
      var digits := if s[0] == '+' || s[0] == '-' then s[1..] else s;
      var (un, e) := ParseUint(digits);
      if e == Some(ErrSyntax) then Parsed(0, Some(ErrSyntax))
      else if !neg && un > MaxInt64 then Parsed(MaxInt64, Some(ErrRange))
      else if neg && un > -MinInt64 then Parsed(MinInt64, Some(ErrRange))
      else Parsed(if neg then -(un as int) else un, None)
  }

  /** The decimal digits of n, without leading zeros. */
  function NatToDec(n: nat): (s: string)
    ensures |s| >= 1 && AllDigits(s) && DecValue(s) == n
    ensures s[0] == '0' ==> n == 0
    decreases n
  {
    var last := ['0' + ((n % 10) as char)];
    if n < 10 then last
    else
      var prefix := NatToDec(n / 10);
      var s := prefix + last;
      assert s[..|s| - 1] == prefix;
      s
  }

  /** `fmt.Sprintf("%d", n)` and `strconv.FormatInt(n, 10)`. */
  function FormatInt(n: int): string
  {
    if n < 0 then "-" + NatToDec(-n) else NatToDec(n)
  }

  /** A well-formed decimal integer: an optional sign followed by at least one digit. */
  predicate WellFormed(s: string)
  {
    |s| >= 1 &&
    var digits := if s[0] == '+' || s[0] == '-' then s[1..] else s;
    |digits| >= 1 && AllDigits(digits)
  }

  /** The integer a well-formed decimal denotes. */
  function SignedValue(s: string): int
    requires WellFormed(s)
  {
    var digits := if s[0] == '+' || s[0] == '-' then s[1..] else s;
    if s[0] == '-' then -(DecValue(digits) as int) else DecValue(digits)
  }

  lemma {:induction false} DecValuePrefix(s: string, j: nat)
    requires AllDigits(s) && j <= |s|
    ensures AllDigits(s[..j]) && DecValue(s[..j]) <= DecValue(s)
    decreases |s| - j
  {
    if j < |s| {
      DecValuePrefix(s, j + 1);
      assert s[..j + 1][..j] == s[..j];
    } else {
      assert s[..j] == s;
    }
  }

  /**
   * The scan from position i, started with the value of the digits before
   * i, succeeds exactly when the rest is all digits and the whole number
   * fits in 64 unsigned bits, and then yields that number.
   */
  lemma {:induction false} ScanUintExact(s: string, i: nat)
    requires i <= |s| && AllDigits(s[..i]) && DecValue(s[..i]) <= MaxUint64
    ensures var r := ScanUint(s, i, DecValue(s[..i]));
      (r.1 == None <==> AllDigits(s) && DecValue(s) <= MaxUint64) &&
      (r.1 == None ==> r.0 == DecValue(s)) &&
      (AllDigits(s) ==> r.1 != Some(ErrSyntax))
    decreases |s| - i
  {
    var n := DecValue(s[..i]);
    if i == |s| {
      assert s[..i] == s;
    } else if !IsDigit(s[i]) {
    } else {
      var n1 := n * 10 + DigitValue(s[i]);
      assert s[..i + 1][..i] == s[..i];
      assert AllDigits(s[..i + 1]) && DecValue(s[..i + 1]) == n1;
      if n >= UintCutoff || n1 > MaxUint64 {
        if AllDigits(s) {
          DecValuePrefix(s, i + 1);
        }
      } else {
        ScanUintExact(s, i + 1);
      }
    }
  }

  /**
   * ParseInt succeeds exactly on well-formed decimals whose value is in the
   * int64 range, and then returns that value.
   */
  lemma ParseIntExact(s: string)
    ensures ParseInt(s).err == None <==> WellFormed(s) && MinInt64 <= SignedValue(s) <= MaxInt64
    ensures ParseInt(s).err == None ==> ParseInt(s).value == SignedValue(s)
  {
    if s != "" {
      var digits := if s[0] == '+' || s[0] == '-' then s[1..] else s;
      if digits != "" {
        assert digits[..0] == "";
        ScanUintExact(digits, 0);
        var r := ScanUint(digits, 0, 0);
        assert ParseUint(digits) == r;
        if r.1 == None {
          assert AllDigits(digits) && r.0 == DecValue(digits);
          assert WellFormed(s);
        } else {
          assert r.1.Some?;
          assert r.1.value.ErrSyntax? || r.1.value.ErrRange?;
          assert ParseInt(s).err != None;
          if WellFormed(s) {
            assert AllDigits(digits) && DecValue(digits) > MaxUint64;
          }
        }
      }
    }
  }

  /** A syntax error always comes with the value 0. */
  lemma ParseIntSyntaxZero(s: string)
    ensures ParseInt(s).err == Some(ErrSyntax) ==> ParseInt(s).value == 0
  {
  }

  /** The decimal form of any integer is a well-formed decimal denoting it. */
  lemma FormatWellFormed(n: int)
    ensures WellFormed(FormatInt(n)) && SignedValue(FormatInt(n)) == n
  {
    var s := FormatInt(n);
    if n < 0 {
      var d := NatToDec(-n);
      assert s[1..] == d;
    } else {
      assert IsDigit(s[0]);
    }
  }

  /** Formatting an int64 and parsing it back is the identity. */
  lemma FormatParse(n: Int64)
    ensures ParseInt(FormatInt(n)) == Parsed(n, None)
  {
    FormatWellFormed(n);
    ParseIntExact(FormatInt(n));
  }

  /** Distinct int64 values have distinct decimal forms. */
  lemma FormatIntInjective(a: Int64, b: Int64)
    ensures FormatInt(a) == FormatInt(b) ==> a == b
  {
    FormatParse(a);
    FormatParse(b);
  }
}
