/** The strconv functions the request helpers call (Atoi, ParseBool), for a 64-bit int,
    and decimal rendering of natural numbers (strconv.Itoa on n >= 0). */
module Strconv {
  import opened Base

  const MaxInt64: int := 0x7fff_ffff_ffff_ffff
  const MaxUint64: int := 0xffff_ffff_ffff_ffff

  const ErrSyntax := "invalid syntax"
  const ErrRange := "value out of range"

  predicate IsDigit(c: char)
  {
    '0' <= c <= '9'
  }

  function DigitValue(c: char): nat
    requires IsDigit(c)
  {
    (c as int) - ('0' as int)
  }

  function DigitChar(d: nat): (c: char)
    requires d < 10
    ensures IsDigit(c) && DigitValue(c) == d
  {
    (('0' as int) + d) as char
  }

  /** strconv.Itoa for n >= 0: the shortest decimal numeral of n. */
  function Decimal(n: nat): (s: string)
    ensures |s| >= 1 && forall i :: 0 <= i < |s| ==> IsDigit(s[i])
  {
    if n < 10 then [DigitChar(n)] else Decimal(n / 10) + [DigitChar(n % 10)]
  }

  /** Outcome of ParseUint's digit loop. */
  datatype Scan = Digits(value: nat) | BadSyntax | OutOfRange

  /** ParseUint(s, 10, 64)'s loop: left to right, a non-digit is a syntax error, and an
      accumulated value above 2^64-1 is a range error, whichever comes first. */
  function ScanDigits(s: string, acc: nat): Scan
    decreases |s|
  {
    if s == [] then Digits(acc)
    else if !IsDigit(s[0]) then BadSyntax
    else if acc * 10 + DigitValue(s[0]) > MaxUint64 then OutOfRange
    else ScanDigits(s[1..], acc * 10 + DigitValue(s[0]))
  }

  /** strconv.Atoi on a 64-bit platform: an optional sign, then at least one decimal digit,
      within [-2^63, 2^63-1]. Both of Atoi's paths (the short-string fast path and ParseInt)
      give the same outcome, so one definition covers them. */
  function Atoi(s: string): (r: Result<int>)
    ensures r.Success? ==> -(MaxInt64 + 1) <= r.value <= MaxInt64
    ensures r.Failure? ==> r.error.NumError? && r.error.fn == "Atoi" && r.error.num == s
    ensures r.Failure? && s != [] && s[0] != '-' && s[0] != '+' && !IsDigit(s[0]) ==> r.error.reason == ErrSyntax
  {
    if s == [] then Failure(NumError("Atoi", s, ErrSyntax))
    else
      var negative := s[0] == '-';
      var digits := if s[0] == '-' || s[0] == '+' then s[1..] else s;
      if digits == [] then Failure(NumError("Atoi", s, ErrSyntax))
      else match ScanDigits(digits, 0)
        case BadSyntax => Failure(NumError("Atoi", s, ErrSyntax))
        case OutOfRange => Failure(NumError("Atoi", s, ErrRange))
        case Digits(u) =>
          if !negative && u > MaxInt64 then Failure(NumError("Atoi", s, ErrRange))
          else if negative && u > MaxInt64 + 1 then Failure(NumError("Atoi", s, ErrRange))
          else
            var v: int := if negative then -(u as int) else u;
            Success(v)
  }

  /** strconv.ParseBool. */
  function ParseBool(s: string): Result<bool>
  {
    if s in {"1", "t", "T", "TRUE", "true", "True"} then Success(true)
    else if s in {"0", "f", "F", "FALSE", "false", "False"} then Success(false)
    else Failure(NumError("ParseBool", s, ErrSyntax))
  }

  /** Appending one digit continues the scan from where it stopped. */
  lemma {:induction false} ScanSnoc(s: string, c: char, acc: nat)
    requires IsDigit(c)
    ensures ScanDigits(s + [c], acc) ==
      match ScanDigits(s, acc)
      case Digits(v) => if v * 10 + DigitValue(c) > MaxUint64 then OutOfRange else Digits(v * 10 + DigitValue(c))
      case other => other
  {
    if s == [] {
      assert [c][1..] == [];
    } else {
      assert (s + [c])[1..] == s[1..] + [c];
      if IsDigit(s[0]) && acc * 10 + DigitValue(s[0]) <= MaxUint64 {
        ScanSnoc(s[1..], c, acc * 10 + DigitValue(s[0]));
      }
    }
  }

  /** Scanning the numeral of n gives back n. */
  lemma {:induction false} ScanDecimal(n: nat)
    requires n <= MaxUint64
    ensures ScanDigits(Decimal(n), 0) == Digits(n)
  {
    if n >= 10 {
      ScanDecimal(n / 10);
      ScanSnoc(Decimal(n / 10), DigitChar(n % 10), 0);
    }
  }

  /** Distinct numbers have distinct numerals, so numerals serve as fresh keys. */
  lemma {:induction false} DecimalInjective(m: nat, n: nat)
    requires m != n
    ensures Decimal(m) != Decimal(n)
    decreases m + n
  {
    if m < 10 && n < 10 {
    } else if m < 10 {
      assert |Decimal(n)| >= 2 by { assert Decimal(n) == Decimal(n / 10) + [DigitChar(n % 10)]; }
    } else if n < 10 {
      assert |Decimal(m)| >= 2 by { assert Decimal(m) == Decimal(m / 10) + [DigitChar(m % 10)]; }
    } else if m % 10 != n % 10 {
      var dm, dn := Decimal(m), Decimal(n);
      assert dm[|dm| - 1] == DigitChar(m % 10);
      assert dn[|dn| - 1] == DigitChar(n % 10);
    } else {
      DecimalInjective(m / 10, n / 10);
      var dm, dn := Decimal(m), Decimal(n);
      assert dm[..|dm| - 1] == Decimal(m / 10);
      assert dn[..|dn| - 1] == Decimal(n / 10);
    }
  }

  /** Atoi reads back what Itoa writes, over the whole non-negative int64 range. */
  lemma AtoiDecimal(n: nat)
    requires n <= MaxInt64
    ensures Atoi(Decimal(n)) == Success(n)
  {
    ScanDecimal(n);
  }

  /** Atoi reads a negated numeral down to -2^63. */
  lemma AtoiNegativeDecimal(n: nat)
    requires n <= MaxInt64 + 1
    ensures Atoi("-" + Decimal(n)).Success? && Atoi("-" + Decimal(n)).value == -(n as int)
  {
    ScanDecimal(n);
    assert ("-" + Decimal(n))[1..] == Decimal(n);
  }
}
