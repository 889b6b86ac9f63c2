/**
 * The parts of the Redis store's semantics that the service's calls depend on,
 * as pure functions on values: what counts as an integer value, what DECR and
 * INCR compute, what TTL replies and how the go-redis client turns that reply
 * into a time.Duration.
 */
module Redis {
  import opened Wrappers
  import opened Strconv

  /**
   * The value of a stored string as a Redis integer: exactly the canonical
   * decimal text of an int64 (no '+', no leading zero, no "-0", no blanks).
   */
  function IntegerValue(s: string): (r: Option<int>)
    ensures r.Some? ==> InInt64(r.value) && FormatInt(r.value) == s
    ensures r.Some? ==> Atoi(s) == r.value
  {
    match ParseDecimal(s)
    case None => None
    case Some(v) => if InInt64(v) && FormatInt(v) == s then Some(v) else None
  }

  /** Every int64 written by the store reads back as that integer. */
  lemma IntegerValueFormatInt(n: int)
    requires InInt64(n)
    ensures IntegerValue(FormatInt(n)) == Some(n)
  {
    ParseFormatInt(n);
  }

  /**
   * DECR on a key whose current value is v (None: the key does not exist):
   * a missing key counts as 0; a value that is not an integer, or whose
   * decrement would leave the int64 range, makes DECR fail (None).
   */
  function Decremented(v: Option<string>): (r: Option<int>)
    ensures r.Some? ==> InInt64(r.value)
    ensures v == None ==> r == Some(-1)
    ensures r.Some? && v.Some? ==> Atoi(v.value) == r.value + 1
  {
    match v
    case None => Some(-1)
    case Some(s) =>
      match IntegerValue(s)
      case None => None
      case Some(n) => if InInt64(n - 1) then Some(n - 1) else None
  }

  /** DECR succeeds on any value the store itself wrote, unless it is the int64 minimum. */
  lemma DecrementedFormatInt(n: int)
    requires InInt64(n) && InInt64(n - 1)
    ensures Decremented(Some(FormatInt(n))) == Some(n - 1)
  {
    IntegerValueFormatInt(n);
  }

  /** INCR on an integer-valued key holding n; it fails on int64 overflow. */
  function Incremented(n: int): (r: Option<int>)
    requires InInt64(n)
    ensures r.Some? ==> InInt64(r.value)
  {
    if n < Int64Max then Some(n + 1) else None
  }

  /** TTL's reply for a key not in the store. */
  const TtlNoKey: int := -2
  /** TTL's reply for a key stored without an expiry. */
  const TtlNoExpiry: int := -1

  /** The reply of TTL, in seconds, for a key that is present or not and has a TTL or not. */
  function TtlReply(present: bool, ttlSeconds: Option<int>): int {
    if !present then TtlNoKey
    else match ttlSeconds
      case None => TtlNoExpiry
      case Some(secs) => secs
  }

  const Nanosecond: int := 1
  const Second: int := 1_000_000_000
  const Minute: int := 60 * Second

  /**
   * go-redis's TTL(...).Result() as a time.Duration (nanoseconds): the two
   * negative sentinels are kept as they are, a real TTL is scaled from seconds.
   */
  function TtlDuration(reply: int): int {
    if reply < 0 then reply else reply * Second
  }

  /** Go's integer division, which truncates toward zero. */
  function GoQuotient(a: int, b: int): (q: int)
    requires b > 0
    ensures a >= 0 ==> 0 <= a - q * b < b
    ensures a < 0 ==> -b < a - q * b <= 0
  {
    if a >= 0 then a / b else -((-a) / b)
  }

  /** A whole TTL in seconds, read back as Duration and divided down to minutes. */
  lemma TtlMinutes(secs: nat)
    ensures GoQuotient(GoQuotient(TtlDuration(secs), Nanosecond), Minute) == secs / 60
  {
    assert TtlDuration(secs) == secs * Second;
    assert (secs * Second) / Minute == secs / 60 by {
      var q, r := secs / 60, secs % 60;
      assert secs * Second == q * Minute + r * Second;
      assert 0 <= r * Second < Minute;
    }
  }
}
