/** Base-10 conversion between strings and 64-bit integers, as Go's
    `strconv.ParseInt(s, 10, 64)` and `strconv.FormatInt(n, 10)` perform it.
    Integers are unbounded here; the 64-bit limits are written out. */
module Strconv {
  import opened Wrappers

  /** The two ways `strconv.ParseInt` can fail (`strconv.ErrSyntax`, `strconv.ErrRange`). */
  datatype NumError = ErrSyntax | ErrRange

  const MaxUint64: int := 0xFFFF_FFFF_FFFF_FFFF
  const MaxInt64: int := 0x7FFF_FFFF_FFFF_FFFF
  const MinInt64: int := -0x8000_0000_0000_0000

  predicate InInt64(n: int) {
    MinInt64 <= n <= MaxInt64
  }

  predicate IsDigit(c: char) {
    '0' <= c <= '9'
  }

  function DigitValue(c: char): (d: nat)
    requires IsDigit(c)
    ensures d < 10
  {
    (c as int) - ('0' as int)
  }

  function DigitChar(d: nat): (c: char)
    requires d < 10
    ensures IsDigit(c) && DigitValue(c) == d
  {
    ('0' as int + d) as char
  }

  predicate AllDigits(s: string) {
    forall i :: 0 <= i < |s| ==> IsDigit(s[i])
  }

  /** The number a string of decimal digits denotes, most significant digit first. */
  function DigitsValue(s: string): nat
    requires AllDigits(s)
  {
    if |s| == 0 then 0 else DigitsValue(s[..|s| - 1]) * 10 + DigitValue(s[|s| - 1])
  }

  /** A decimal integer literal: an optional sign followed by at least one digit. */
  predicate IsDecimal(s: string) {
    |s| > 0 &&
    var body := if s[0] == '+' || s[0] == '-' then s[1..] else s;
    |body| > 0 && AllDigits(body)
  }

  /** The integer a decimal literal denotes. */
  function DecimalValue(s: string): int
    requires IsDecimal(s)
  {
    if s[0] == '-' then 0 - DigitsValue(s[1..])
    else if s[0] == '+' then DigitsValue(s[1..])
    else DigitsValue(s)
  }

  /** The digit loop of `strconv.ParseUint` for base 10: characters are read left
      to right with `n` the value so far; a non-digit is a syntax error and the
      first step that passes 2^64 - 1 is a range error, whatever follows it. */
  function ScanUint(s: string, i: nat, n: nat): Result<nat, NumError>
    requires i <= |s|
    decreases |s| - i
  {
    if i == |s| then Success(n)
    else if !IsDigit(s[i]) then Failure(ErrSyntax)
    else if n * 10 + DigitValue(s[i]) > MaxUint64 then Failure(ErrRange)
    else ScanUint(s, i + 1, n * 10 + DigitValue(s[i]))
  }

  /** `strconv.ParseUint(s, 10, 64)`: the empty string is a syntax error. */
  function ParseUint(s: string): (r: Result<nat, NumError>)
    ensures r.Success? <==> |s| > 0 && AllDigits(s) && DigitsValue(s) <= MaxUint64
    ensures r.Success? ==> r.value == DigitsValue(s)
    ensures |s| > 0 && AllDigits(s) && DigitsValue(s) > MaxUint64 ==> r == Failure(ErrRange)
  {
    if |s| == 0 then Failure(ErrSyntax)
    else
      ScanUintCorrect(s, 0, 0);
      ScanUint(s, 0, 0)
  }

  /** `strconv.ParseInt(s, 10, 64)`: an optional sign, then the unsigned digits,
      then the signed 64-bit range check (an unsigned range error stays a range error). */
  function ParseInt(s: string): (r: Result<int, NumError>)
    ensures r.Success? <==> IsDecimal(s) && InInt64(DecimalValue(s))
    ensures r.Success? ==> r.value == DecimalValue(s)
    ensures IsDecimal(s) && !InInt64(DecimalValue(s)) ==> r == Failure(ErrRange)
  {
    if |s| == 0 then Failure(ErrSyntax)
    else
      var neg := s[0] == '-';
      var digits := if s[0] == '+' || s[0] == '-' then s[1..] else s;
      match ParseUint(digits)
      case Failure(e) => Failure(e)
      case Success(un) =>
        if !neg && un >= 0x8000_0000_0000_0000 then Failure(ErrRange)
        else if neg && un > 0x8000_0000_0000_0000 then Failure(ErrRange)
        else
          var v: int := un;
          Success(if neg then -v else v)
  }

  /** `strconv.FormatUint(n, 10)`: the shortest digit string for n. */
  function FormatUint(n: nat): (s: string)
    ensures |s| > 0 && AllDigits(s) && DigitsValue(s) == n
    ensures |s| > 1 ==> s[0] != '0'
  {
    if n < 10 then [DigitChar(n)]
    else
      var prefix := FormatUint(n / 10);
      var s := prefix + [DigitChar(n % 10)];
      assert s[..|s| - 1] == prefix;
      s
  }

  /** `strconv.FormatInt(n, 10)`: a minus sign for negative numbers, never a plus sign. */
  function FormatInt(n: int): (s: string)
    ensures IsDecimal(s) && DecimalValue(s) == n
    ensures s[0] != '+'
  {
    if n < 0 then
      var s := ['-'] + FormatUint(-n);
      assert s[1..] == FormatUint(-n);
      s
    else FormatUint(n)
  }

  /** Parsing what FormatInt produced gives the number back, for every 64-bit integer. */
  lemma FormatIntRoundTrip(n: int)
    requires InInt64(n)
    ensures ParseInt(FormatInt(n)) == Success(n)
  {
  }

  /** Conversely, a decimal string survives ParseInt then FormatInt unchanged exactly
      when it is in the form FormatInt writes: no plus sign, no leading zero, no "-0". */
  lemma {:induction false} ParseIntFormatCanonical(s: string)
    requires ParseInt(s).Success?
    ensures FormatInt(ParseInt(s).value) == s <==>
              (s[0] != '+' &&
               var body := if s[0] == '-' then s[1..] else s;
               (|body| == 1 || body[0] != '0') && !(s[0] == '-' && body == "0"))
  {
    var body := if s[0] == '+' || s[0] == '-' then s[1..] else s;
    var v := DigitsValue(body);
    if (|body| == 1 || body[0] != '0') {
      FormatUintUnique(body);
      assert FormatUint(v) == body;
    } else {
      assert FormatUint(v) != body;
    }
  }

  /** A digit string without a redundant leading zero is the one FormatUint writes. */
  lemma {:induction false} FormatUintUnique(s: string)
    requires |s| > 0 && AllDigits(s)
    requires |s| == 1 || s[0] != '0'
    ensures FormatUint(DigitsValue(s)) == s
    decreases |s|
  {
    var v := DigitsValue(s);
    if |s| == 1 {
      assert s[..0] == [];
    } else {
      var p := s[..|s| - 1];
      assert p[0] == s[0];
      assert AllDigits(p);
      FormatUintUnique(p);
      DigitsValuePositive(p);
      assert v / 10 == DigitsValue(p);
      assert v % 10 == DigitValue(s[|s| - 1]);
      assert s == p + [s[|s| - 1]];
    }
  }

  lemma {:induction false} DigitsValuePositive(s: string)
    requires |s| > 0 && AllDigits(s) && s[0] != '0'
    ensures DigitsValue(s) > 0
    decreases |s|
  {
    if |s| > 1 {
      var p := s[..|s| - 1];
      assert p[0] == s[0];
      DigitsValuePositive(p);
    }
  }

  /** A digit string's value is at least the value of any of its prefixes. */
  lemma {:induction false} DigitsValuePrefix(s: string, j: nat)
    requires j <= |s| && AllDigits(s)
    ensures AllDigits(s[..j]) && DigitsValue(s[..j]) <= DigitsValue(s)
    decreases |s| - j
  {
    if j < |s| {
      DigitsValuePrefix(s, j + 1);
      assert s[..j + 1][..j] == s[..j];
    } else {
      assert s[..j] == s;
    }
  }

  /** The left-to-right scan computes the right-to-left definition, and fails
      exactly when a character is not a digit or the value passes 2^64 - 1. */
  lemma {:induction false} ScanUintCorrect(s: string, i: nat, n: nat)
    requires i <= |s| && AllDigits(s[..i]) && n == DigitsValue(s[..i]) && n <= MaxUint64
    ensures ScanUint(s, i, n).Success? <==> AllDigits(s) && DigitsValue(s) <= MaxUint64
    ensures ScanUint(s, i, n).Success? ==> ScanUint(s, i, n).value == DigitsValue(s)
    ensures AllDigits(s) && DigitsValue(s) > MaxUint64 ==> ScanUint(s, i, n) == Failure(ErrRange)
    decreases |s| - i
  {
    if i == |s| {
      assert s[..i] == s;
    } else if !IsDigit(s[i]) {
      assert !AllDigits(s);
    } else {
      var n' := n * 10 + DigitValue(s[i]);
      assert s[..i + 1][..i] == s[..i];
      assert AllDigits(s[..i + 1]);
      assert DigitsValue(s[..i + 1]) == n';
      if n' > MaxUint64 {
        if AllDigits(s) {
          DigitsValuePrefix(s, i + 1);
        }
      } else {
        ScanUintCorrect(s, i + 1, n');
      }
    }
  }
}
