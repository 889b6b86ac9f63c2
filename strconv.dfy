/**
 * Go's 64-bit integers and the decimal text conversions the service relies on:
 * strconv.Atoi (service.go:84, 131) and the canonical decimal form in which
 * Redis hands back an integer value.
 */
module Strconv {
  import opened Wrappers

  const Int64Min: int := -0x8000_0000_0000_0000
  const Int64Max: int := 0x7FFF_FFFF_FFFF_FFFF

  predicate InInt64(n: int) {
    Int64Min <= n <= Int64Max
  }

  /** A Go `int` or `int64` (the service runs on a 64-bit platform). */
  type Int64 = n: int | Int64Min <= n <= Int64Max

  /** The int64 nearest to n (see Clamp64Nearest): what ParseInt returns alongside ErrRange. */
  function Clamp64(n: int): (r: int)
    ensures InInt64(r)
    ensures InInt64(n) ==> r == n
    ensures r <= 0 <==> n <= 0
  {
    if n < Int64Min then Int64Min else if n > Int64Max then Int64Max else n
  }

  predicate IsDigit(c: char) {
    '0' <= c <= '9'
  }

  predicate AllDigits(s: string) {
    forall i :: 0 <= i < |s| ==> IsDigit(s[i])
  }

  /** The value of a string of decimal digits, most significant first. */
  function DigitsValue(s: string): nat
    requires AllDigits(s)
  {
    if s == [] then 0 else DigitsValue(s[..|s| - 1]) * 10 + (s[|s| - 1] as int - '0' as int)
  }

  function DigitChar(d: nat): (c: char)
    requires d < 10
    ensures IsDigit(c) && c as int - '0' as int == d
  {
    ('0' as int + d) as char
  }

  /** The shortest decimal text of n: at least one digit and no leading zero. */
  function NatDigits(n: nat): (s: string)
    ensures |s| >= 1 && AllDigits(s)
    ensures s[0] == '0' ==> n == 0
    decreases n
  {
    if n < 10 then [DigitChar(n)] else NatDigits(n / 10) + [DigitChar(n % 10)]
  }

  /** strconv.FormatInt(n, 10); Redis replies with integer values in this form too. */
  function FormatInt(n: int): (s: string)
    ensures |s| >= 1
    ensures s[0] == '-' <==> n < 0
  {
    if n < 0 then "-" + NatDigits(-n) else NatDigits(n)
  }

  /** 2^64 - 1: the largest magnitude strconv.ParseUint accumulates. */
  const Uint64Max: int := 0xFFFF_FFFF_FFFF_FFFF

  /** The number of decimal digits s starts with. */
  function DigitRun(s: string): (k: nat)
    ensures k <= |s| && AllDigits(s[..k])
    ensures k < |s| ==> !IsDigit(s[k])
  {
    if s != [] && IsDigit(s[0]) then
      var k := 1 + DigitRun(s[1..]);
      assert s[..k] == [s[0]] + s[1..][..k - 1];
      k
    else 0
  }

  /**
   * The magnitude strconv.ParseUint(s, 10, 64) arrives at, reading s from the
   * left: the value of s when it is all digits, and, because ParseUint gives up
   * with ErrRange as soon as the digits read so far exceed 2^64 - 1, the value
   * of the leading digits when that happens before a non-digit is reached.
   * None for its syntax errors: an empty s, or a non-digit (a sign, a letter,
   * '_', a blank) met while the value still fits.
   */
  function UnsignedValue(s: string): Option<nat> {
    if s != [] && AllDigits(s) then Some(DigitsValue(s))
    else
      var lead := s[..DigitRun(s)];
      if DigitsValue(lead) > Uint64Max then Some(DigitsValue(lead)) else None
  }

  /**
   * The value strconv.ParseInt(s, 10, 64) works out before it clamps to the
   * int64 range: an optional '+' or '-' and then the magnitude of the rest.
   * Atoi's fast path for strings shorter than 19 bytes accepts the same
   * syntax and cannot overflow, so it agrees.
   */
  function ParseDecimal(s: string): Option<int> {
    var signed := |s| > 0 && (s[0] == '+' || s[0] == '-');
    match UnsignedValue(if signed then s[1..] else s)
    case None => None
    case Some(m) =>
      var magnitude: int := m;
      Some(if signed && s[0] == '-' then -magnitude else magnitude)
  }

  /**
   * `v, _ := strconv.Atoi(s)` with the error discarded: 0 on a syntax error and
   * the nearest int64 bound when the magnitude overflows.
   */
  function Atoi(s: string): (r: int)
    ensures InInt64(r)
    ensures ParseDecimal(s) == None ==> r == 0
    ensures r > 0 <==> ParseDecimal(s).Some? && ParseDecimal(s).value > 0
    ensures ParseDecimal(s).Some? && InInt64(ParseDecimal(s).value) ==> r == ParseDecimal(s).value
  {
    match ParseDecimal(s)
    case None => 0
    case Some(v) => Clamp64(v)
  }

  /** Clamp64 returns the int64 nearest to n. */
  lemma Clamp64Nearest(n: int, m: int)
    requires InInt64(m)
    ensures Distance(Clamp64(n), n) <= Distance(m, n)
  {
  }

  function Distance(a: int, b: int): (d: nat)
    ensures d == a - b || d == b - a
  {
    if a >= b then a - b else b - a
  }

  lemma {:induction false} DigitRunAppend(d: string, t: string)
    requires AllDigits(d)
    ensures DigitRun(d + t) == |d| + DigitRun(t)
    decreases |d|
  {
    if d != [] {
      assert (d + t)[1..] == d[1..] + t;
      DigitRunAppend(d[1..], t);
    } else {
      assert d + t == t;
    }
  }

  /**
   * Digits followed by a non-digit: Atoi gives 0 (a syntax error) while the
   * digits fit in 64 bits, and the int64 maximum when they do not, because
   * ParseUint stops with ErrRange before it reaches the non-digit.
   */
  lemma AtoiDigitsThenJunk(d: string, tail: string)
    requires |d| > 0 && AllDigits(d) && |tail| > 0 && !IsDigit(tail[0])
    ensures Atoi(d + tail) == if DigitsValue(d) > Uint64Max then Int64Max else 0
  {
    var s := d + tail;
    assert IsDigit(s[0]);
    assert !AllDigits(s) by { assert s[|d|] == tail[0]; }
    DigitRunAppend(d, tail);
    assert s[..DigitRun(s)] == d;
  }

  /** The text of 2^64 followed by an 'x' reads as the int64 maximum, not as 0. */
  lemma AtoiOverflowBeforeJunk()
    ensures Atoi(FormatInt(Uint64Max + 1) + "x") == Int64Max
  {
    NatDigitsValue(Uint64Max + 1);
    AtoiDigitsThenJunk(NatDigits(Uint64Max + 1), "x");
  }

  lemma {:induction false} NatDigitsValue(n: nat)
    ensures DigitsValue(NatDigits(n)) == n
    decreases n
  {
    if n >= 10 {
      var s := NatDigits(n);
      assert s[..|s| - 1] == NatDigits(n / 10);
      NatDigitsValue(n / 10);
    }
  }

  /** Reading back the text FormatInt writes gives the number again. */
  lemma ParseFormatInt(n: int)
    ensures ParseDecimal(FormatInt(n)) == Some(n)
  {
    if n < 0 {
      assert FormatInt(n)[1..] == NatDigits(-n);
      NatDigitsValue(-n);
    } else {
      NatDigitsValue(n);
    }
  }

  lemma AtoiFormatInt(n: int)
    requires InInt64(n)
    ensures Atoi(FormatInt(n)) == n
  {
    ParseFormatInt(n);
  }

  /** Distinct numbers have distinct decimal texts. */
  lemma FormatIntInjective(m: int, n: int)
    requires FormatInt(m) == FormatInt(n)
    ensures m == n
  {
    ParseFormatInt(m);
    ParseFormatInt(n);
  }
}
