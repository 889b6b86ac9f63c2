/**
 * The URL-shortening service of service.go: the request and response types,
 * the store it works on (two Redis logical databases), one pure step function
 * per operation, and the class `InmemService` whose methods change the store
 * in the order the Go code does and are proved against those step functions.
 */
module Shortener {
  import opened Wrappers
  import opened Strconv
  import Redis

  /** The range of rand.Uint64(). */
  type Uint64 = n: int | 0 <= n < 0x1_0000_0000_0000_0000

  /** A shortening request (service.go:26-30). `expiry` is a count of hours held in a time.Duration. */
  datatype Shorten = Shorten(url: string, customShort: string, expiry: Int64)

  /** The response of a successful request (service.go:32-38). */
  datatype ShortenResp = ShortenResp(
    url: string,
    customShort: string,
    expiry: Int64,
    xRateRemaining: int,
    xRateLimitReset: int)

  /** The errors the service returns; each is a fresh errors.New whose text is given. */
  datatype Error =
    | RateLimitExceeded(resetMinutes: int)  // "Rate limit exceeded, rate_limit_reset: " and the minutes
    | InvalidURL                            // "Invalid URL"
    | DomainError                           // "Can't do that: Domain error"
    | ShortInUse                            // "URL Custom short is already in use"
    | ServerUnreachable                     // "Unable to connect to server"
    | NotFound                              // "short-url not found in db"
    | InternalError                         // "Internal error"

  datatype Result<T> = Ok(value: T) | Err(error: Error)

  /**
   * The process environment and the helpers the service calls but whose code is
   * not part of this model: API_QUOTA and DOMAIN as read by os.Getenv,
   * govalidator.IsURL, helpers.RemoveDomainError, helpers.EnforceHTTP and
   * helpers.Base62Encode.
   */
  datatype Env = Env(
    apiQuota: string,
    domain: string,
    isURL: string -> bool,
    domainAllowed: string -> bool,
    enforceHTTP: string -> string,
    base62Encode: Uint64 -> string)

  /**
   * Which store calls of one PostShorten fail: the GET of the counter (line 78),
   * the TTL read (79), the SET of a new counter (82), the GET of the code (114),
   * the SET of the mapping (124) and the DECR (140).
   */
  datatype Faults = Faults(
    counterRead: bool,
    ttlRead: bool,
    counterWrite: bool,
    codeRead: bool,
    codeWrite: bool,
    decr: bool)

  const NoFaults: Faults := Faults(false, false, false, false, false, false)

  /** The lifetime of a new rate-limit counter, in seconds (line 82). */
  const QuotaWindowSeconds: int := 30 * 60
  /** The expiry used when the request gives 0 (line 121). */
  const DefaultExpiryHours: int := 24
  /** The constant reported as `rate_limit_reset` (line 137). */
  const RateLimitReset: int := 30

  /**
   * The store. Database 0 holds `codes` (short code to URL) with the TTL of each
   * expiring code in `ttlHours`; database 1 holds the rate-limit counters in
   * `limits` (Redis strings, keyed by client IP) with the TTL of each expiring
   * counter in `limitTtl` (seconds), and the global "counter" key as `stats`.
   */
  datatype Store = Store(
    codes: map<string, string>,
    ttlHours: map<string, int>,
    limits: map<string, string>,
    limitTtl: map<string, int>,
    stats: Int64)

  /** A TTL belongs to a stored key and is positive; a counter never outlives its window. */
  predicate WellFormed(s: Store) {
    && s.ttlHours.Keys <= s.codes.Keys
    && (forall id :: id in s.ttlHours ==> s.ttlHours[id] > 0)
    && s.limitTtl.Keys <= s.limits.Keys
    && (forall ip :: ip in s.limitTtl ==> 0 < s.limitTtl[ip] <= QuotaWindowSeconds)
  }

  /** The new store and the reply of one call. */
  datatype Outcome<T> = Outcome(store: Store, result: Result<T>)

  /** What the GET of the counter at line 78 yields: redis.Nil, a value, or another error. */
  datatype CounterRead = Missing | Found(text: string) | ReadFailed

  function ReadCounter(s: Store, ip: string, failed: bool): CounterRead {
    if failed then ReadFailed else if ip in s.limits then Found(s.limits[ip]) else Missing
  }

  /**
   * The counter's TTL read at line 79 (a zero Duration when the read fails),
   * divided down to minutes as at lines 86 and 146.
   */
  function ResetMinutes(s: Store, ip: string, failed: bool): int {
    var limit := if failed then 0 else Redis.TtlDuration(Redis.TtlReply(ip in s.limits, Lookup(s.limitTtl, ip)));
    Redis.GoQuotient(Redis.GoQuotient(limit, Redis.Nanosecond), Redis.Minute)
  }

  /** Line 85: a counter that is read and does not parse to a positive number rejects the request. */
  predicate Admitted(read: CounterRead) {
    !(read.Found? && Atoi(read.text) <= 0)
  }

  /** Lines 81-82: a missing counter is created holding API_QUOTA for the window; a failing SET is ignored. */
  function AfterQuotaInit(env: Env, s: Store, ip: string, f: Faults): Store {
    if ReadCounter(s, ip, f.counterRead).Missing? && !f.counterWrite then
      s.(limits := s.limits[ip := env.apiQuota], limitTtl := s.limitTtl[ip := QuotaWindowSeconds])
    else s
  }

  /** Lines 104-109: the requested short code, or a random one. */
  function ChosenId(env: Env, p: Shorten, random: Uint64): string {
    if p.customShort != "" then p.customShort else env.base62Encode(random)
  }

  /** Line 114: the value GET returns for the code, with its error dropped ("" on redis.Nil or a failure). */
  function StoredUrl(codes: map<string, string>, id: string, failed: bool): string {
    if failed || id !in codes then "" else codes[id]
  }

  /** Lines 120-122. */
  function DefaultedExpiry(expiry: Int64): Int64 {
    if expiry == 0 then DefaultExpiryHours else expiry
  }

  /**
   * Line 124: SET of the mapping with expiry x 3600 s. go-redis sends an expiry
   * only for a positive duration, so a negative expiry stores the code for good.
   */
  function PutCode(s: Store, id: string, url: string, expiry: int): Store {
    s.(codes := s.codes[id := url],
       ttlHours := if expiry > 0 then s.ttlHours[id := expiry] else s.ttlHours - {id})
  }

  /**
   * Lines 92-118: the URL checks and the collision check, in the order of the
   * code; None when the request passes them all. Only the codes are consulted.
   */
  function RequestError(env: Env, codes: map<string, string>, p: Shorten, random: Uint64, codeReadFails: bool): Option<Error> {
    if !env.isURL(p.url) then Some(InvalidURL)
    else if !env.domainAllowed(p.url) then Some(DomainError)
    else if StoredUrl(codes, ChosenId(env, p, random), codeReadFails) != "" then Some(ShortInUse)
    else None
  }

  /**
   * Lines 120-149, once every check has passed: the SET of the mapping, the
   * DECR of the caller's counter and the response.
   */
  function CommitStep(env: Env, s: Store, ip: string, id: string, url: string, expiry: Int64, minutes: int,
                      writeFails: bool, decrFails: bool): Outcome<ShortenResp> {
    if writeFails then Outcome(s, Err(ServerUnreachable))
    else
      var s2 := PutCode(s, id, url, expiry);
      var remaining := if decrFails then None else Redis.Decremented(Lookup(s2.limits, ip));
      if remaining.None? then Outcome(s2, Err(ServerUnreachable))
      else
        Outcome(s2.(limits := s2.limits[ip := FormatInt(remaining.value)]),
                Ok(ShortenResp(url, env.domain + "/" + id, expiry, minutes, RateLimitReset)))
  }

  /** inmemService.PostShorten (service.go:64-150) as a function of the store before the call. */
  function PostShortenStep(env: Env, s: Store, ip: string, p: Shorten, random: Uint64, f: Faults): Outcome<ShortenResp> {
    var s1 := AfterQuotaInit(env, s, ip, f);
    var minutes := ResetMinutes(s, ip, f.ttlRead);
    if !Admitted(ReadCounter(s, ip, f.counterRead)) then Outcome(s1, Err(RateLimitExceeded(minutes)))
    else match RequestError(env, s.codes, p, random, f.codeRead)
      case Some(e) => Outcome(s1, Err(e))
      case None =>
        CommitStep(env, s1, ip, ChosenId(env, p, random), env.enforceHTTP(p.url),
                   DefaultedExpiry(p.expiry), minutes, f.codeWrite, f.decr)
  }

  /**
   * inmemService.Resolve (service.go:152-169) as a function of the store: the
   * GET of the code, then an INCR of "counter" whose failure is ignored.
   */
  function ResolveStep(s: Store, code: string, readFails: bool, incrFails: bool): Outcome<string> {
    if readFails then Outcome(s, Err(InternalError))
    else if code !in s.codes then Outcome(s, Err(NotFound))
    else
      var next := if incrFails then None else Redis.Incremented(s.stats);
      Outcome(if next.Some? then s.(stats := next.value) else s, Ok(s.codes[code]))
  }

  /** The store drops a code whose TTL has run out. */
  function ExpireCodeStep(s: Store, id: string): Store {
    if id in s.ttlHours then s.(codes := s.codes - {id}, ttlHours := s.ttlHours - {id}) else s
  }

  /** The store drops a counter whose window has run out. */
  function ExpireCounterStep(s: Store, ip: string): Store {
    if ip in s.limitTtl then s.(limits := s.limits - {ip}, limitTtl := s.limitTtl - {ip}) else s
  }

  lemma AfterQuotaInitWellFormed(env: Env, s: Store, ip: string, f: Faults)
    requires WellFormed(s)
    ensures WellFormed(AfterQuotaInit(env, s, ip, f))
  {
  }

  lemma CommitWellFormed(env: Env, s: Store, ip: string, id: string, url: string, expiry: Int64, minutes: int,
                         writeFails: bool, decrFails: bool)
    requires WellFormed(s)
    ensures WellFormed(CommitStep(env, s, ip, id, url, expiry, minutes, writeFails, decrFails).store)
    ensures var st := CommitStep(env, s, ip, id, url, expiry, minutes, writeFails, decrFails).store;
      !writeFails ==> Lookup(st.ttlHours, id) == if expiry > 0 then Some(expiry as int) else None
    ensures CommitStep(env, s, ip, id, url, expiry, minutes, writeFails, decrFails).store.limitTtl == s.limitTtl
  {
    assert WellFormed(PutCode(s, id, url, expiry));
  }

  lemma PostShortenWellFormed(env: Env, s: Store, ip: string, p: Shorten, random: Uint64, f: Faults)
    requires WellFormed(s)
    ensures WellFormed(PostShortenStep(env, s, ip, p, random, f).store)
  {
    AfterQuotaInitWellFormed(env, s, ip, f);
    CommitWellFormed(env, AfterQuotaInit(env, s, ip, f), ip, ChosenId(env, p, random), env.enforceHTTP(p.url),
                     DefaultedExpiry(p.expiry), ResetMinutes(s, ip, f.ttlRead), f.codeWrite, f.decr);
  }

  /** inmemService together with the two Redis databases it opens on every call. */
  class InmemService {
    const env: Env
    var codes: map<string, string>
    var ttlHours: map<string, int>
    var limits: map<string, string>
    var limitTtl: map<string, int>
    var stats: Int64

    function State(): Store
      reads this
    {
      Store(codes, ttlHours, limits, limitTtl, stats)
    }

    /** A service over a store holding `init`. */
    constructor (env: Env, init: Store)
      ensures State() == init
      ensures this.env == env
    {
      this.env := env;
      codes, ttlHours := init.codes, init.ttlHours;
      limits, limitTtl := init.limits, init.limitTtl;
      stats := init.stats;
    }

    method PostShorten(ip: string, p: Shorten, random: Uint64, f: Faults) returns (r: Result<ShortenResp>)
      modifies this
      ensures State() == PostShortenStep(env, old(State()), ip, p, random, f).store
      ensures r == PostShortenStep(env, old(State()), ip, p, random, f).result
    {
      // Lines 74-77: an empty ip is only logged; it is then used as a key like any other.
      var read, minutes := CheckCounter(ip, f);
      if read.Found? {
        var valInt := Atoi(read.text);
        if valInt <= 0 {
          return Err(RateLimitExceeded(minutes));
        }
      }

      var failure, id, url, expiry := CheckRequest(p, random, f.codeRead);
      if failure.Some? {
        return Err(failure.value);
      }
      r := Commit(ip, id, url, expiry, minutes, f.codeWrite, f.decr);
    }

    /**
     * Lines 92-122: IsURL, the domain check, EnforceHTTP, the choice of the
     * code, the GET of that code on db 0 (its error dropped) and the default
     * expiry. The store is only read.
     */
    method CheckRequest(p: Shorten, random: Uint64, codeReadFails: bool)
      returns (failure: Option<Error>, id: string, url: string, expiry: Int64)
      ensures failure == RequestError(env, codes, p, random, codeReadFails)
      ensures failure == None ==> id == ChosenId(env, p, random) && url == env.enforceHTTP(p.url)
      ensures failure == None ==> expiry == DefaultedExpiry(p.expiry)
    {
      id, url, expiry := "", "", p.expiry;
      if !env.isURL(p.url) {
        return Some(InvalidURL), id, url, expiry;
      }
      if !env.domainAllowed(p.url) {
        return Some(DomainError), id, url, expiry;
      }
      url := env.enforceHTTP(p.url);

      if p.customShort != "" {
        id := p.customShort;
      } else {
        id := env.base62Encode(random);
      }

      var val := if codeReadFails || id !in codes then "" else codes[id];
      if val != "" {
        return Some(ShortInUse), id, url, expiry;
      }

      if expiry == 0 {
        expiry := DefaultExpiryHours;
      }
      failure := None;
    }

    /** Lines 124-149: the SET of the mapping, the DECR of the counter and the response. */
    method Commit(ip: string, id: string, url: string, expiry: Int64, minutes: int, writeFails: bool, decrFails: bool)
      returns (r: Result<ShortenResp>)
      modifies this`codes, this`ttlHours, this`limits
      ensures State() == CommitStep(env, old(State()), ip, id, url, expiry, minutes, writeFails, decrFails).store
      ensures r == CommitStep(env, old(State()), ip, id, url, expiry, minutes, writeFails, decrFails).result
    {
      if writeFails {
        return Err(ServerUnreachable);
      }
      SetCode(id, url, expiry);

      var resp := ShortenResp(url, "", expiry, Atoi(env.apiQuota), RateLimitReset);

      var remaining := None;
      if !decrFails {
        remaining := DecrCounter(ip);
      }
      if remaining.None? {
        return Err(ServerUnreachable);
      }

      // Line 145 stores the decremented count; line 146 overwrites it with the minutes.
      resp := resp.(xRateRemaining := remaining.value);
      resp := resp.(xRateRemaining := minutes);
      resp := resp.(customShort := env.domain + "/" + id);
      return Ok(resp);
    }

    /**
     * Lines 78-83: GET and TTL of the caller's counter, and the SET of a missing
     * counter to API_QUOTA for the window (an error of that SET is dropped).
     */
    method CheckCounter(ip: string, f: Faults) returns (read: CounterRead, minutes: int)
      modifies this`limits, this`limitTtl
      ensures read == ReadCounter(old(State()), ip, f.counterRead)
      ensures minutes == ResetMinutes(old(State()), ip, f.ttlRead)
      ensures State() == AfterQuotaInit(env, old(State()), ip, f)
    {
      read := if f.counterRead then ReadFailed else if ip in limits then Found(limits[ip]) else Missing;
      var limit := if f.ttlRead then 0 else Redis.TtlDuration(Redis.TtlReply(ip in limits, Lookup(limitTtl, ip)));
      minutes := Redis.GoQuotient(Redis.GoQuotient(limit, Redis.Nanosecond), Redis.Minute);
      if read.Missing? && !f.counterWrite {
        limits := limits[ip := env.apiQuota];
        limitTtl := limitTtl[ip := QuotaWindowSeconds];
      }
    }

    /** Line 124: SET of the mapping, with a TTL only for a positive expiry. */
    method SetCode(id: string, url: string, expiry: int)
      modifies this`codes, this`ttlHours
      ensures State() == PutCode(old(State()), id, url, expiry)
    {
      codes := codes[id := url];
      if expiry > 0 {
        ttlHours := ttlHours[id := expiry];
      } else {
        ttlHours := ttlHours - {id};
      }
    }

    /** Line 140: DECR of the caller's counter; None when the store refuses it. */
    method DecrCounter(ip: string) returns (remaining: Option<int>)
      modifies this`limits
      ensures remaining == Redis.Decremented(Lookup(old(limits), ip))
      ensures State() == if remaining.Some? then old(State()).(limits := old(limits)[ip := FormatInt(remaining.value)]) else old(State())
    {
      remaining := Redis.Decremented(Lookup(limits, ip));
      if remaining.Some? {
        limits := limits[ip := FormatInt(remaining.value)];
      }
    }

    method Resolve(url: string, readFails: bool, incrFails: bool) returns (r: Result<string>)
      modifies this`stats
      ensures State() == ResolveStep(old(State()), url, readFails, incrFails).store
      ensures r == ResolveStep(old(State()), url, readFails, incrFails).result
    {
      if readFails {
        return Err(InternalError);
      }
      if url !in codes {
        return Err(NotFound);
      }
      var value := codes[url];
      if !incrFails {
        var next := Redis.Incremented(stats);
        if next.Some? {
          stats := next.value;
        }
      }
      return Ok(value);
    }

    /** The store's expiry of a code whose TTL has run out; it is the only way a code goes away. */
    method ExpireCode(id: string)
      requires id in ttlHours
      modifies this`codes, this`ttlHours
      ensures State() == ExpireCodeStep(old(State()), id)
      ensures id !in codes
    {
      codes := codes - {id};
      ttlHours := ttlHours - {id};
    }

    /** The store's expiry of a counter whose window has run out. */
    method ExpireCounter(ip: string)
      requires ip in limitTtl
      modifies this`limits, this`limitTtl
      ensures State() == ExpireCounterStep(old(State()), ip)
      ensures ip !in limits
    {
      limits := limits - {ip};
      limitTtl := limitTtl - {ip};
    }
  }
}
