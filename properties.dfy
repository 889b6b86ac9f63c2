/**
 * What one call of PostShorten or Resolve does to the store and replies, stated
 * about the step functions the class methods are proved against.
 */
module ShortenerProperties {
  import opened Wrappers
  import opened Strconv
  import Redis
  import opened Shortener

  /**
   * Lines 78-87: a request is refused for its quota exactly when the caller's
   * counter was read and does not parse to a positive number; the refusal
   * reports the counter's TTL in minutes and writes nothing.
   */
  lemma RateLimitRefusal(env: Env, s: Store, ip: string, p: Shorten, random: Uint64, f: Faults)
    ensures var o := PostShortenStep(env, s, ip, p, random, f);
      (o.result.Err? && o.result.error.RateLimitExceeded?)
        <==> (ip in s.limits && !f.counterRead && Atoi(s.limits[ip]) <= 0)
    ensures var o := PostShortenStep(env, s, ip, p, random, f);
      o.result.Err? && o.result.error.RateLimitExceeded? ==>
        o.store == s && o.result.error.resetMinutes == ResetMinutes(s, ip, f.ttlRead)
  {
  }

  /**
   * Lines 81-82: a caller without a counter gets one holding API_QUOTA for the
   * 30-minute window before the URL is looked at, so it exists however the
   * request ends; only a success takes one off it.
   */
  lemma MissingCounterCreated(env: Env, s: Store, ip: string, p: Shorten, random: Uint64, f: Faults)
    requires ip !in s.limits && !f.counterRead && !f.counterWrite
    ensures var o := PostShortenStep(env, s, ip, p, random, f);
      && ip in o.store.limits && ip in o.store.limitTtl
      && o.store.limitTtl[ip] == QuotaWindowSeconds
      && (o.result.Err? ==> o.store.limits[ip] == env.apiQuota)
      && (o.result.Ok? ==> o.store.limits[ip] == FormatInt(Atoi(env.apiQuota) - 1))
  {
    var o := PostShortenStep(env, s, ip, p, random, f);
    var s1 := AfterQuotaInit(env, s, ip, f);
    assert s1.limits[ip] == env.apiQuota && s1.limitTtl[ip] == QuotaWindowSeconds;
    if RequestError(env, s.codes, p, random, f.codeRead).Some? || f.codeWrite {
      assert o.store == s1;
    } else {
      var s2 := PutCode(s1, ChosenId(env, p, random), env.enforceHTTP(p.url), DefaultedExpiry(p.expiry));
      assert s2.limits == s1.limits && s2.limitTtl == s1.limitTtl;
      var next := if f.decr then None else Redis.Decremented(Some(env.apiQuota));
      if next.None? {
        assert o.store == s2;
      } else {
        assert o.store == s2.(limits := s2.limits[ip := FormatInt(next.value)]);
      }
    }
  }

  /**
   * The only DECR is the last store call (line 140), so a failed request never
   * takes quota; and a request refused before line 124 leaves the mappings as
   * they were. Neither operation touches the stats counter.
   */
  lemma FailuresNeverDecrement(env: Env, s: Store, ip: string, p: Shorten, random: Uint64, f: Faults)
    ensures var o := PostShortenStep(env, s, ip, p, random, f);
      o.result.Err? ==>
        && o.store.limits == AfterQuotaInit(env, s, ip, f).limits
        && o.store.limitTtl == AfterQuotaInit(env, s, ip, f).limitTtl
    ensures var o := PostShortenStep(env, s, ip, p, random, f);
      o.result.Err? && o.result.error != ServerUnreachable ==>
        o.store.codes == s.codes && o.store.ttlHours == s.ttlHours
    ensures PostShortenStep(env, s, ip, p, random, f).store.stats == s.stats
  {
    var o := PostShortenStep(env, s, ip, p, random, f);
    var s1 := AfterQuotaInit(env, s, ip, f);
    if !Admitted(ReadCounter(s, ip, f.counterRead)) || RequestError(env, s.codes, p, random, f.codeRead).Some? || f.codeWrite {
      assert o.store == s1;
    } else {
      var s2 := PutCode(s1, ChosenId(env, p, random), env.enforceHTTP(p.url), DefaultedExpiry(p.expiry));
      if o.result.Err? {
        assert o.store == s2;
      }
    }
  }

  /**
   * Lines 104-118: the code is the custom one when given, else the encoded
   * random number; it is refused as in use exactly when GET returned a
   * non-empty URL for it, and the mapping already there is left alone.
   */
  lemma ShortInUseExactly(env: Env, s: Store, ip: string, p: Shorten, random: Uint64, f: Faults)
    ensures p.customShort != "" ==> ChosenId(env, p, random) == p.customShort
    ensures p.customShort == "" ==> ChosenId(env, p, random) == env.base62Encode(random)
    ensures var o := PostShortenStep(env, s, ip, p, random, f);
      o.result == Err(ShortInUse) <==>
        && Admitted(ReadCounter(s, ip, f.counterRead))
        && env.isURL(p.url) && env.domainAllowed(p.url)
        && !f.codeRead
        && ChosenId(env, p, random) in s.codes
        && s.codes[ChosenId(env, p, random)] != ""
    ensures var o := PostShortenStep(env, s, ip, p, random, f);
      o.result == Err(ShortInUse) ==> o.store.codes == s.codes && o.store.ttlHours == s.ttlHours
  {
  }

  /**
   * A mapping to a non-empty URL is never overwritten while the GET at line 114
   * works; with that GET failing, its dropped error lets the SET replace it.
   */
  lemma LiveMappingKept(env: Env, s: Store, ip: string, p: Shorten, random: Uint64, f: Faults, code: string)
    requires code in s.codes && s.codes[code] != "" && !f.codeRead
    ensures var o := PostShortenStep(env, s, ip, p, random, f);
      code in o.store.codes && o.store.codes[code] == s.codes[code]
  {
    var o := PostShortenStep(env, s, ip, p, random, f);
    var s1 := AfterQuotaInit(env, s, ip, f);
    assert s1.codes == s.codes;
    if !Admitted(ReadCounter(s, ip, f.counterRead)) || RequestError(env, s.codes, p, random, f.codeRead).Some? || f.codeWrite {
      assert o.store == s1;
    } else {
      var id := ChosenId(env, p, random);
      assert id != code;
      assert o.store.codes == s.codes[id := env.enforceHTTP(p.url)];
    }
  }

  /** Other codes are not touched by a request. */
  lemma OtherCodesUntouched(env: Env, s: Store, ip: string, p: Shorten, random: Uint64, f: Faults, code: string)
    requires code != ChosenId(env, p, random)
    ensures var o := PostShortenStep(env, s, ip, p, random, f);
      Lookup(o.store.codes, code) == Lookup(s.codes, code) && Lookup(o.store.ttlHours, code) == Lookup(s.ttlHours, code)
  {
    var id, expiry := ChosenId(env, p, random), DefaultedExpiry(p.expiry);
    var o := PostShortenStep(env, s, ip, p, random, f);
    MappingsAfterShorten(env, s, ip, p, random, f);
    if o.store.codes != s.codes {
      assert o.store.codes == s.codes[id := env.enforceHTTP(p.url)];
      assert o.store.ttlHours == PutCode(s, id, env.enforceHTTP(p.url), expiry).ttlHours;
    }
  }

  /** The mappings after a request: as before, or with the one SET of line 124 applied. */
  lemma MappingsAfterShorten(env: Env, s: Store, ip: string, p: Shorten, random: Uint64, f: Faults)
    ensures var o := PostShortenStep(env, s, ip, p, random, f);
      var put := PutCode(s, ChosenId(env, p, random), env.enforceHTTP(p.url), DefaultedExpiry(p.expiry));
      (o.store.codes == s.codes && o.store.ttlHours == s.ttlHours) ||
      (o.store.codes == put.codes && o.store.ttlHours == put.ttlHours)
  {
    var o := PostShortenStep(env, s, ip, p, random, f);
    var s1 := AfterQuotaInit(env, s, ip, f);
    assert s1.codes == s.codes && s1.ttlHours == s.ttlHours;
    if !Admitted(ReadCounter(s, ip, f.counterRead)) || RequestError(env, s.codes, p, random, f.codeRead).Some? {
      assert o.store == s1;
    } else if f.codeWrite {
      assert o.store == s1;
    } else {
      var put1 := PutCode(s1, ChosenId(env, p, random), env.enforceHTTP(p.url), DefaultedExpiry(p.expiry));
      assert o.store.codes == put1.codes && o.store.ttlHours == put1.ttlHours;
    }
  }

  /** Other callers' counters are not touched by a request. */
  lemma OtherCountersUntouched(env: Env, s: Store, ip: string, p: Shorten, random: Uint64, f: Faults, other: string)
    requires other != ip
    ensures var o := PostShortenStep(env, s, ip, p, random, f);
      Lookup(o.store.limits, other) == Lookup(s.limits, other) && Lookup(o.store.limitTtl, other) == Lookup(s.limitTtl, other)
  {
    var o := PostShortenStep(env, s, ip, p, random, f);
    var s1 := AfterQuotaInit(env, s, ip, f);
    assert Lookup(s1.limits, other) == Lookup(s.limits, other) && Lookup(s1.limitTtl, other) == Lookup(s.limitTtl, other);
    if !Admitted(ReadCounter(s, ip, f.counterRead)) || RequestError(env, s.codes, p, random, f.codeRead).Some? || f.codeWrite {
      assert o.store == s1;
    } else {
      var s2 := PutCode(s1, ChosenId(env, p, random), env.enforceHTTP(p.url), DefaultedExpiry(p.expiry));
      assert s2.limits == s1.limits && s2.limitTtl == s1.limitTtl;
      assert o.store.limitTtl == s1.limitTtl;
      var next := if f.decr then None else Redis.Decremented(Lookup(s1.limits, ip));
      assert o.store.limits == if next.Some? then s1.limits[ip := FormatInt(next.value)] else s1.limits;
    }
  }

  /** Lines 84-142: the conditions under which a request succeeds, all of them. */
  lemma SucceedsExactlyWhen(env: Env, s: Store, ip: string, p: Shorten, random: Uint64, f: Faults)
    ensures var o := PostShortenStep(env, s, ip, p, random, f);
      o.result.Ok? <==>
        && Admitted(ReadCounter(s, ip, f.counterRead))
        && env.isURL(p.url) && env.domainAllowed(p.url)
        && StoredUrl(s.codes, ChosenId(env, p, random), f.codeRead) == ""
        && !f.codeWrite && !f.decr
        && Redis.Decremented(Lookup(AfterQuotaInit(env, s, ip, f).limits, ip)).Some?
  {
  }

  /**
   * Lines 120-124: on success the code maps to the normalised URL, with a TTL of
   * the defaulted expiry in hours (none for a negative expiry); the stats
   * counter is not touched.
   */
  lemma SuccessMapping(env: Env, s: Store, ip: string, p: Shorten, random: Uint64, f: Faults)
    requires PostShortenStep(env, s, ip, p, random, f).result.Ok?
    ensures var o := PostShortenStep(env, s, ip, p, random, f);
      var id := ChosenId(env, p, random);
      var expiry := DefaultedExpiry(p.expiry);
      && o.store.codes == s.codes[id := env.enforceHTTP(p.url)]
      && (expiry > 0 ==> o.store.ttlHours == s.ttlHours[id := expiry])
      && (expiry < 0 ==> o.store.ttlHours == s.ttlHours - {id})
      && o.store.stats == s.stats
  {
    var s1 := AfterQuotaInit(env, s, ip, f);
    var put := PutCode(s1, ChosenId(env, p, random), env.enforceHTTP(p.url), DefaultedExpiry(p.expiry));
    assert PostShortenStep(env, s, ip, p, random, f).store == put.(limits := PostShortenStep(env, s, ip, p, random, f).store.limits);
  }

  /**
   * Line 140: on success the caller's counter is one less than just before the
   * DECR (a counter DECR had to create reads -1), its TTL is the one it had
   * then, and no other counter changes.
   */
  lemma SuccessCounter(env: Env, s: Store, ip: string, p: Shorten, random: Uint64, f: Faults)
    requires PostShortenStep(env, s, ip, p, random, f).result.Ok?
    ensures var o := PostShortenStep(env, s, ip, p, random, f);
      var counter := Lookup(AfterQuotaInit(env, s, ip, f).limits, ip);
      && ip in o.store.limits
      && (counter.Some? ==> Atoi(o.store.limits[ip]) == Atoi(counter.value) - 1)
      && (counter.None? ==> o.store.limits[ip] == "-1")
      && o.store.limits - {ip} == s.limits - {ip}
      && o.store.limitTtl == AfterQuotaInit(env, s, ip, f).limitTtl
  {
    var s1 := AfterQuotaInit(env, s, ip, f);
    var counter := Lookup(s1.limits, ip);
    var next := Redis.Decremented(counter);
    SuccessLimits(env, s, ip, p, random, f);
    var limits := PostShortenStep(env, s, ip, p, random, f).store.limits;
    assert limits == s1.limits[ip := FormatInt(next.value)];
    assert s1.limits - {ip} == s.limits - {ip};
    assert limits - {ip} == s1.limits - {ip};
    if counter.Some? {
      AtoiFormatInt(next.value);
    }
  }

  /** Line 140 on success: DECR answered, and its result written as the caller's counter. */
  lemma SuccessLimits(env: Env, s: Store, ip: string, p: Shorten, random: Uint64, f: Faults)
    requires PostShortenStep(env, s, ip, p, random, f).result.Ok?
    ensures var s1 := AfterQuotaInit(env, s, ip, f);
      var next := Redis.Decremented(Lookup(s1.limits, ip));
      var o := PostShortenStep(env, s, ip, p, random, f);
      && next.Some?
      && o.store.limits == s1.limits[ip := FormatInt(next.value)]
      && o.store.limitTtl == s1.limitTtl
  {
  }

  /**
   * Lines 132-148: the response of a success. `xRateRemaining` holds the TTL
   * minutes read at line 79, not the decremented count, because line 146
   * overwrites what line 145 stored.
   */
  lemma SuccessResponse(env: Env, s: Store, ip: string, p: Shorten, random: Uint64, f: Faults)
    requires PostShortenStep(env, s, ip, p, random, f).result.Ok?
    ensures var resp := PostShortenStep(env, s, ip, p, random, f).result.value;
      && resp.url == env.enforceHTTP(p.url)
      && resp.customShort == env.domain + "/" + ChosenId(env, p, random)
      && resp.expiry == DefaultedExpiry(p.expiry) && resp.expiry != 0
      && (p.expiry == 0 ==> resp.expiry == DefaultExpiryHours)
      && (p.expiry != 0 ==> resp.expiry == p.expiry)
      && resp.xRateLimitReset == 30
      && resp.xRateRemaining == ResetMinutes(s, ip, f.ttlRead)
  {
  }

  /**
   * Lines 79, 86 and 146: in a well-formed store the minutes reported lie
   * between 0 and 30; a caller without a TTL'd counter (TTL replies -2 or -1)
   * or a failed TTL read gives 0, and a live counter its whole minutes left.
   */
  lemma ResetMinutesRange(s: Store, ip: string, failed: bool)
    requires WellFormed(s)
    ensures 0 <= ResetMinutes(s, ip, failed) <= 30
    ensures failed || ip !in s.limitTtl ==> ResetMinutes(s, ip, failed) == 0
    ensures !failed && ip in s.limitTtl ==> ResetMinutes(s, ip, failed) == s.limitTtl[ip] / 60
  {
    if !failed && ip in s.limitTtl {
      Redis.TtlMinutes(s.limitTtl[ip]);
    }
  }

  /** A successful shortening is resolved, until it expires, to the normalised URL it stored. */
  lemma ShortenThenResolve(env: Env, s: Store, ip: string, p: Shorten, random: Uint64, f: Faults)
    requires PostShortenStep(env, s, ip, p, random, f).result.Ok?
    ensures var o := PostShortenStep(env, s, ip, p, random, f);
      ResolveStep(o.store, ChosenId(env, p, random), false, false).result == Ok(env.enforceHTTP(p.url))
  {
  }

  /**
   * Lines 156-168: a missing code is reported as not found and a failed read
   * as an internal error, both leaving the store as it was; a present code is
   * answered with its URL and the stats counter goes up by one unless INCR
   * fails. Only `stats` ever changes.
   */
  lemma ResolveReply(s: Store, code: string, readFails: bool, incrFails: bool)
    ensures var o := ResolveStep(s, code, readFails, incrFails);
      readFails ==> o == Outcome(s, Err(InternalError))
    ensures var o := ResolveStep(s, code, readFails, incrFails);
      !readFails && code !in s.codes ==> o == Outcome(s, Err(NotFound))
    ensures var o := ResolveStep(s, code, readFails, incrFails);
      !readFails && code in s.codes ==>
        && o.result == Ok(s.codes[code])
        && (!incrFails && s.stats < Int64Max ==> o.store.stats == s.stats + 1)
        && (incrFails || s.stats == Int64Max ==> o.store == s)
    ensures var o := ResolveStep(s, code, readFails, incrFails);
      o.store == s.(stats := o.store.stats) && s.stats <= o.store.stats
  {
  }

  /** Resolving the same code twice in a row gives the same reply both times. */
  lemma ResolveTwice(s: Store, code: string, readFails: bool, incr1: bool, incr2: bool)
    ensures var o := ResolveStep(s, code, readFails, incr1);
      ResolveStep(o.store, code, readFails, incr2).result == o.result
  {
  }

  /** A code's expiry removes that code and its TTL from database 0 and nothing else. */
  lemma CodeExpiryRemovesOneKey(s: Store, id: string)
    requires id in s.ttlHours
    ensures var e := ExpireCodeStep(s, id);
      && e.codes == s.codes - {id} && e.ttlHours == s.ttlHours - {id}
      && e.limits == s.limits && e.limitTtl == s.limitTtl && e.stats == s.stats
  {
  }

  /**
   * A counter's expiry removes that counter and its TTL from database 1 and
   * nothing else; the caller's next request starts a new window.
   */
  lemma CounterExpiryRemovesOneKey(s: Store, ip: string)
    requires ip in s.limitTtl
    ensures var e := ExpireCounterStep(s, ip);
      && e.limits == s.limits - {ip} && e.limitTtl == s.limitTtl - {ip}
      && e.codes == s.codes && e.ttlHours == s.ttlHours && e.stats == s.stats
  {
  }

  /**
   * Lines 78-149 with every store call working: a caller without a counter
   * whose URL passes both checks and whose code is free gets a response
   * exactly when API_QUOTA is the text of an int64 above the minimum, the
   * values DECR accepts.
   */
  lemma FreshCallerSucceeds(env: Env, s: Store, ip: string, p: Shorten, random: Uint64)
    requires ip !in s.limits && env.isURL(p.url) && env.domainAllowed(p.url)
    requires StoredUrl(s.codes, ChosenId(env, p, random), false) == ""
    ensures PostShortenStep(env, s, ip, p, random, NoFaults).result.Ok? <==>
      Redis.IntegerValue(env.apiQuota).Some? && Redis.IntegerValue(env.apiQuota).value > Int64Min
  {
    SucceedsExactlyWhen(env, s, ip, p, random, NoFaults);
    assert Lookup(AfterQuotaInit(env, s, ip, NoFaults).limits, ip) == Some(env.apiQuota);
  }
}
