/**
 * The rate limit over a run of calls: within one quota window (no expiry of
 * the caller's counter, every read of that counter answered) a client IP gets
 * at most API_QUOTA successful shortenings, or one when API_QUOTA does not
 * parse to a positive number. The window starts with the caller's counter
 * absent, as after it has expired.
 */
module Quota {
  import opened Wrappers
  import opened Strconv
  import opened Shortener
  import Redis
  import ShortenerProperties

  /** One thing that happens to the store: a call of the service, or a TTL running out. */
  datatype Event =
    | ShortenCall(ip: string, p: Shorten, random: Uint64, faults: Faults)
    | ResolveCall(code: string, readFails: bool, incrFails: bool)
    | CodeExpires(id: string)
    | CounterExpires(ip: string)

  function Apply(env: Env, s: Store, e: Event): Store {
    match e
    case ShortenCall(ip, p, random, f) => PostShortenStep(env, s, ip, p, random, f).store
    case ResolveCall(code, readFails, incrFails) => ResolveStep(s, code, readFails, incrFails).store
    case CodeExpires(id) => ExpireCodeStep(s, id)
    case CounterExpires(ip) => ExpireCounterStep(s, ip)
  }

  /** The store after a run of events. */
  function Run(env: Env, s: Store, es: seq<Event>): Store
    decreases |es|
  {
    if es == [] then s else Run(env, Apply(env, s, es[0]), es[1..])
  }

  /** The event is a shortening by `x` that succeeds. */
  predicate Succeeded(env: Env, s: Store, e: Event, x: string) {
    e.ShortenCall? && e.ip == x && PostShortenStep(env, s, e.ip, e.p, e.random, e.faults).result.Ok?
  }

  /** How many shortenings by `x` succeed along the run. */
  function Successes(env: Env, s: Store, es: seq<Event>, x: string): (n: nat)
    ensures n <= |es|
    decreases |es|
  {
    if es == [] then 0
    else (if Succeeded(env, s, es[0], x) then 1 else 0) + Successes(env, Apply(env, s, es[0]), es[1..], x)
  }

  /** The event neither expires x's counter nor is a shortening by x whose GET of the counter fails. */
  predicate InWindow(e: Event, x: string) {
    && !(e.CounterExpires? && e.ip == x)
    && !(e.ShortenCall? && e.ip == x && e.faults.counterRead)
  }

  predicate Window(es: seq<Event>, x: string) {
    forall i :: 0 <= i < |es| ==> InWindow(es[i], x)
  }

  /** The most successes a window allows. */
  function Cap(env: Env): (c: int)
    ensures c >= 1
    ensures Atoi(env.apiQuota) >= 1 ==> c == Atoi(env.apiQuota)
  {
    var q := Atoi(env.apiQuota);
    if q >= 1 then q else 1
  }

  function Max0(n: int): (r: nat)
    ensures r >= n && (n >= 0 ==> r == n)
  {
    if n >= 0 then n else 0
  }

  /**
   * `n` successes so far in the window: none while x has no counter, and with
   * a counter, the successes plus what the counter still allows stay within
   * the cap.
   */
  predicate Budget(env: Env, s: Store, x: string, n: nat) {
    match Lookup(s.limits, x)
    case None => n == 0
    case Some(v) => n + Max0(Atoi(v)) <= Cap(env)
  }

  lemma BudgetBound(env: Env, s: Store, x: string, n: nat)
    requires Budget(env, s, x, n)
    ensures n <= Cap(env)
  {
  }

  /** A shortening by x keeps the budget, counting itself when it succeeds. */
  lemma OwnShortenKeepsBudget(env: Env, s: Store, x: string, p: Shorten, random: Uint64, f: Faults, n: nat)
    requires Budget(env, s, x, n) && !f.counterRead
    ensures var o := PostShortenStep(env, s, x, p, random, f);
      Budget(env, o.store, x, n + if o.result.Ok? then 1 else 0)
  {
    var o := PostShortenStep(env, s, x, p, random, f);
    var s1 := AfterQuotaInit(env, s, x, f);
    if o.result.Err? {
      ShortenerProperties.FailuresNeverDecrement(env, s, x, p, random, f);
      assert o.store.limits == s1.limits;
      if x !in s.limits && !f.counterWrite {
        assert s1.limits[x] == env.apiQuota;
      }
    } else {
      ShortenerProperties.SuccessCounter(env, s, x, p, random, f);
      ShortenerProperties.RateLimitRefusal(env, s, x, p, random, f);
      if x in s.limits {
        assert s1 == s;
        assert Atoi(o.store.limits[x]) == Atoi(s.limits[x]) - 1;
      } else if f.counterWrite {
        assert o.store.limits[x] == "-1";
        AtoiFormatInt(-1);
        assert FormatInt(-1) == "-1";
      } else {
        assert Lookup(s1.limits, x) == Some(env.apiQuota);
      }
    }
  }

  /** Any event in x's window that is not x's own shortening leaves x's counter as it was. */
  lemma OtherEventKeepsCounter(env: Env, s: Store, e: Event, x: string)
    requires InWindow(e, x) && !(e.ShortenCall? && e.ip == x)
    ensures Lookup(Apply(env, s, e).limits, x) == Lookup(s.limits, x)
  {
    match e
    case ShortenCall(ip, p, random, f) =>
      ShortenerProperties.OtherCountersUntouched(env, s, ip, p, random, f, x);
    case ResolveCall(code, readFails, incrFails) =>
      ShortenerProperties.ResolveReply(s, code, readFails, incrFails);
    case CodeExpires(id) =>
    case CounterExpires(ip) =>
  }

  lemma {:induction false} BudgetKept(env: Env, s: Store, es: seq<Event>, x: string, n: nat)
    requires Budget(env, s, x, n) && Window(es, x)
    ensures n + Successes(env, s, es, x) <= Cap(env)
    decreases |es|
  {
    if es == [] {
      BudgetBound(env, s, x, n);
    } else {
      var e := es[0];
      assert InWindow(e, x);
      var k := if Succeeded(env, s, e, x) then 1 else 0;
      if e.ShortenCall? && e.ip == x {
        OwnShortenKeepsBudget(env, s, x, e.p, e.random, e.faults, n);
      } else {
        OtherEventKeepsCounter(env, s, e, x);
      }
      assert Budget(env, Apply(env, s, e), x, n + k);
      assert Window(es[1..], x) by {
        forall i | 0 <= i < |es[1..]| ensures InWindow(es[1..][i], x) {
          assert es[1..][i] == es[i + 1];
        }
      }
      BudgetKept(env, Apply(env, s, e), es[1..], x, n + k);
    }
  }

  /**
   * Lines 78-87 and 140 over a run: starting the window without a counter, x
   * succeeds at most API_QUOTA times (once when API_QUOTA is not positive)
   * however the calls of others, resolutions, code expiries and store failures
   * other than the counter's GET are interleaved.
   */
  lemma QuotaBound(env: Env, s: Store, es: seq<Event>, x: string)
    requires x !in s.limits && Window(es, x)
    ensures Successes(env, s, es, x) <= Cap(env)
  {
    BudgetKept(env, s, es, x, 0);
  }

  /**
   * Line 78: a failing GET of the counter skips the check, so a caller whose
   * counter is spent still gets through when everything else works.
   */
  lemma ReadFailureBypassesQuota(env: Env, s: Store, x: string, p: Shorten, random: Uint64, f: Faults)
    requires x in s.limits && Atoi(s.limits[x]) <= 0
    ensures PostShortenStep(env, s, x, p, random, f.(counterRead := false)).result == Err(RateLimitExceeded(ResetMinutes(s, x, f.ttlRead)))
    ensures f.counterRead ==>
      (PostShortenStep(env, s, x, p, random, f).result.Ok? <==>
        && env.isURL(p.url) && env.domainAllowed(p.url)
        && StoredUrl(s.codes, ChosenId(env, p, random), f.codeRead) == ""
        && !f.codeWrite && !f.decr
        && Redis.Decremented(Some(s.limits[x])).Some?)
  {
    ShortenerProperties.RateLimitRefusal(env, s, x, p, random, f.(counterRead := false));
    ShortenerProperties.SucceedsExactlyWhen(env, s, x, p, random, f);
    if f.counterRead {
      assert AfterQuotaInit(env, s, x, f) == s;
      assert Lookup(s.limits, x) == Some(s.limits[x]);
    }
  }

  /** Every event keeps the store well formed. */
  lemma ApplyWellFormed(env: Env, s: Store, e: Event)
    requires WellFormed(s)
    ensures WellFormed(Apply(env, s, e))
  {
    match e
    case ShortenCall(ip, p, random, f) => PostShortenWellFormed(env, s, ip, p, random, f);
    case ResolveCall(code, readFails, incrFails) =>
    case CodeExpires(id) =>
    case CounterExpires(ip) =>
  }

  lemma {:induction false} RunWellFormed(env: Env, s: Store, es: seq<Event>)
    requires WellFormed(s)
    ensures WellFormed(Run(env, s, es))
    decreases |es|
  {
    if es != [] {
      ApplyWellFormed(env, s, es[0]);
      RunWellFormed(env, Apply(env, s, es[0]), es[1..]);
    }
  }
}
