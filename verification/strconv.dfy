/** Go's `strconv.Atoi` on a 64-bit platform, and the `%d` rendering of an `int`
    used in error messages. */
module Strconv {
  import opened Wrappers

  const MaxInt64: int := 0x7fff_ffff_ffff_ffff
  const MinInt64: int := -0x8000_0000_0000_0000
  const MaxUint64: int := 0xffff_ffff_ffff_ffff

  predicate InInt64(n: int)
  {
    MinInt64 <= n <= MaxInt64
  }

  /** Why `Atoi` rejected its input; both carry the input text, as Go's `NumError` does. */
  datatype AtoiError = InvalidSyntax(num: string) | OutOfRange(num: string)

  predicate IsDigit(c: char)
  {
    '0' <= c <= '9'
  }

  predicate AllDigits(s: string)
  {
    forall i :: 0 <= i < |s| ==> IsDigit(s[i])
  }

  function DigitValue(c: char): nat
    requires IsDigit(c)
  {
    c as int - '0' as int
  }

  function DigitChar(d: nat): (c: char)
    requires d < 10
    ensures IsDigit(c) && DigitValue(c) == d
  {
    ('0' as int + d) as char
  }

  /** The value of a string of decimal digits, read most significant first. */
  function DigitsValue(s: string): nat
    requires AllDigits(s)
  {
    if |s| == 0 then 0
    else DigitsValue(s[..|s| - 1]) * 10 + DigitValue(s[|s| - 1])
  }

  /** The loop of `strconv.ParseUint` in base 10: a non-digit is a syntax error, and
      an accumulator that would pass the unsigned 64-bit maximum is a range error,
      whichever comes first from the left. `acc` is the value of `s[..i]`. */
  function ScanUint(s: string, i: nat, acc: nat): (r: Result<nat, AtoiError>)
    requires i <= |s|
    ensures r.Success? ==> AllDigits(s[i..])
    ensures r.Success? && acc <= MaxUint64 ==> r.value <= MaxUint64
    decreases |s| - i
  {
    if i == |s| then Success(acc)
    else if !IsDigit(s[i]) then Failure(InvalidSyntax(s))
    else
      var n := acc * 10 + DigitValue(s[i]);
      if n > MaxUint64 then Failure(OutOfRange(s))
      else
        var r := ScanUint(s, i + 1, n);
        assert s[i..] == [s[i]] + s[i + 1..];
        r
  }

  /** The text after an optional leading sign. */
  function Unsigned(s: string): string
  {
    if |s| >= 1 && (s[0] == '+' || s[0] == '-') then s[1..] else s
  }

  /** The value of an optionally signed digit string. */
  function SignedValue(s: string): int
    requires AllDigits(Unsigned(s))
  {
    if |s| >= 1 && s[0] == '-' then 0 - (DigitsValue(Unsigned(s)) as int) else DigitsValue(Unsigned(s))
  }

  /** `strconv.Atoi`: an optional `+` or `-`, then at least one ASCII digit, and a
      value that fits in a signed 64-bit integer. */
  function Atoi(s: string): (r: Result<int, AtoiError>)
    ensures r.Success? ==> InInt64(r.value)
    ensures r.Success? ==> |s| >= 1 && AllDigits(if s[0] == '+' || s[0] == '-' then s[1..] else s)
    ensures s == "" || s == "+" || s == "-" ==> r == Failure(InvalidSyntax(s))
    ensures r.Success? <==> |Unsigned(s)| >= 1 && AllDigits(Unsigned(s)) && InInt64(SignedValue(s))
    ensures r.Success? ==> r.value == SignedValue(s)
    ensures |Unsigned(s)| >= 1 && AllDigits(Unsigned(s)) && !InInt64(SignedValue(s)) ==> r == Failure(OutOfRange(s))
    ensures |Unsigned(s)| <= 19 && !AllDigits(Unsigned(s)) ==> r == Failure(InvalidSyntax(s))
  {
    if |s| == 0 then Failure(InvalidSyntax(s))
    else
      var neg := s[0] == '-';
      var digits := if s[0] == '+' || s[0] == '-' then s[1..] else s;
      if |digits| == 0 then Failure(InvalidSyntax(s))
      else
        ScanFromStart(digits);
        SyntaxFromStart(digits);
        match ScanUint(digits, 0, 0)
        case Failure(e) =>
          Failure(if e.InvalidSyntax? then InvalidSyntax(s) else OutOfRange(s))
        case Success(u) =>
          assert digits[0..] == digits;
          if !neg && u > MaxInt64 then Failure(OutOfRange(s))
          else if neg && u > -MinInt64 then Failure(OutOfRange(s))
          else
            var v: int := if neg then 0 - (u as int) else u as int;
            Success(v)
  }

  /** Decimal digits of a natural number, most significant first, without leading zeros. */
  function FormatNat(n: nat): (r: string)
    ensures |r| >= 1 && AllDigits(r)
    ensures DigitsValue(r) == n
    ensures |r| > 1 ==> r[0] != '0'
  {
    if n < 10 then [DigitChar(n)]
    else
      var r := FormatNat(n / 10) + [DigitChar(n % 10)];
      assert r[..|r| - 1] == FormatNat(n / 10);
      r
  }

  /** `fmt.Sprintf("%d", n)`. */
  function FormatInt(n: int): (r: string)
    ensures |r| >= 1
    ensures n >= 0 ==> AllDigits(r)
    ensures n < 0 ==> r[0] == '-' && AllDigits(r[1..])
    ensures n >= 0 && |r| > 1 ==> r[0] != '0'
    ensures n < 0 ==> |r| >= 2 && r[1] != '0'
  {
    if n < 0 then "-" + FormatNat(-n) else FormatNat(n)
  }

  /** `%d` prints a single decimal digit as that digit's character. */
  lemma FormatDigit(d: nat)
    requires d < 10
    ensures FormatInt(d) == [DigitChar(d)]
  {
  }

  /** A digit string is scanned to its value when that fits in 64 unsigned bits, and
      is a range error otherwise. */
  lemma {:induction false} ScanUintAll(s: string, i: nat)
    requires i <= |s| && AllDigits(s)
    requires DigitsValue(s[..i]) <= MaxUint64
    ensures ScanUint(s, i, DigitsValue(s[..i])) ==
      if DigitsValue(s) <= MaxUint64 then Success(DigitsValue(s)) else Failure(OutOfRange(s))
    decreases |s| - i
  {
    if i == |s| {
      assert s[..i] == s;
    } else {
      assert s[..i + 1][..i] == s[..i];
      DigitsPrefixBound(s, i + 1);
      if DigitsValue(s[..i + 1]) <= MaxUint64 {
        ScanUintAll(s, i + 1);
      }
    }
  }

  /** The scan from the first digit, with nothing accumulated yet. */
  lemma ScanFromStart(s: string)
    ensures AllDigits(s) ==>
      ScanUint(s, 0, 0) == if DigitsValue(s) <= MaxUint64 then Success(DigitsValue(s)) else Failure(OutOfRange(s))
  {
    if AllDigits(s) {
      assert s[..0] == "";
      ScanUintAll(s, 0);
    }
  }

  function Pow10(n: nat): (r: nat)
    ensures r >= 1
  {
    if n == 0 then 1 else 10 * Pow10(n - 1)
  }

  /** Powers of ten grow with the exponent. */
  lemma {:induction false} Pow10Grows(a: nat, b: nat)
    requires a <= b
    ensures Pow10(a) <= Pow10(b)
    decreases b - a
  {
    if a < b {
      Pow10Grows(a, b - 1);
    }
  }

  /** Ten to the nineteenth is below the unsigned 64-bit maximum. */
  lemma Pow10Nineteen()
    ensures Pow10(19) == 10_000_000_000_000_000_000 < MaxUint64
  {
    assert Pow10(4) == 10_000;
    assert Pow10(8) == 100_000_000;
    assert Pow10(12) == 1_000_000_000_000;
    assert Pow10(16) == 10_000_000_000_000_000;
  }

  /** Within 19 characters the accumulator cannot pass the unsigned 64-bit maximum,
      so a non-digit is always reported as a syntax error. */
  lemma {:induction false} ScanUintSyntax(s: string, i: nat, acc: nat)
    requires i <= |s| <= 19 && acc < Pow10(i)
    requires !AllDigits(s[i..])
    ensures ScanUint(s, i, acc) == Failure(InvalidSyntax(s))
    decreases |s| - i
  {
    var k :| 0 <= k < |s[i..]| && !IsDigit(s[i..][k]);
    if IsDigit(s[i]) {
      var p := Pow10(i);
      var n := acc * 10 + DigitValue(s[i]);
      assert Pow10(i + 1) == 10 * p;
      assert n < 10 * p by {
        assert acc + 1 <= p;
        assert acc * 10 + 10 <= p * 10;
      }
      Pow10Grows(i + 1, 19);
      Pow10Nineteen();
      assert s[i + 1..][k - 1] == s[i..][k];
      ScanUintSyntax(s, i + 1, n);
    }
  }

  /** The scan from the first character of a short text holding a non-digit. */
  lemma SyntaxFromStart(s: string)
    ensures |s| <= 19 && !AllDigits(s) ==> ScanUint(s, 0, 0) == Failure(InvalidSyntax(s))
  {
    if |s| <= 19 && !AllDigits(s) {
      assert s[0..] == s;
      ScanUintSyntax(s, 0, 0);
    }
  }

  /** A prefix of a digit string is worth no more than the whole string. */
  lemma {:induction false} DigitsPrefixBound(s: string, i: nat)
    requires i <= |s| && AllDigits(s)
    ensures DigitsValue(s[..i]) <= DigitsValue(s)
    decreases |s| - i
  {
    if i < |s| {
      var t := s[..|s| - 1];
      assert s[..i] == t[..i];
      DigitsPrefixBound(t, i);
    } else {
      assert s[..i] == s;
    }
  }

  /** `Atoi` reads back every 64-bit integer that `%d` prints. */
  lemma AtoiFormatInt(n: int)
    requires InInt64(n)
    ensures Atoi(FormatInt(n)) == Success(n)
  {
    var m: nat := if n < 0 then -n else n;
    var digits := FormatNat(m);
    ScanFromStart(digits);
    if n < 0 {
      assert FormatInt(n)[1..] == digits;
    }
  }
}
