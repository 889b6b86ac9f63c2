# go-url-shortener: the shortening service, modelled in Dafny

This project models `inmemService` of the Go URL shortener. The service has two
operations. `PostShorten` stores a short code for a URL and charges the caller
one unit of a per-IP quota. `Resolve` looks a short code up and counts the hit.
Both work on two logical Redis databases:

- database 0 maps short codes to URLs. A code gets a TTL in hours when its
  expiry is positive; an expiry of 0 becomes 24 hours, and a negative expiry
  stores the code with no TTL;
- database 1 holds one quota counter per client IP and the global `"counter"`
  key that `Resolve` increments. A counter is created with a 30-minute TTL when
  the SET at service.go:82 works. When that SET fails, the DECR at line 140
  creates the counter as `"-1"` with no TTL.

Files:

- `wrappers.dfy` (module `Wrappers`): `Option` and a total map lookup.
- `strconv.dfy` (module `Strconv`): Go's int64 range, `strconv.Atoi` with its
  error dropped, and the decimal text of an integer. Reading that text back
  gives the integer again. Atoi reads its digits from the left. On a syntax
  error it gives 0: an empty numeral, or a non-digit met while the value still
  fits in 64 bits. Once the digits read so far exceed 2^64 - 1, it gives the
  int64 bound of the numeral's sign, whatever follows.
- `redis.dfy` (module `Redis`): what the store does for the calls the service
  makes:
  - which strings are integer values;
  - DECR, which treats a missing key as 0 and fails on a non-integer or on
    int64 underflow;
  - INCR, which fails on overflow;
  - the TTL reply with its -2 and -1 sentinels;
  - go-redis's conversion of that reply into a `time.Duration`;
  - Go's truncating division.
- `service.dfy` (module `Shortener`):
  - the request, response and error types;
  - the store as a value `Store`;
  - one step function per operation: `PostShortenStep`, `ResolveStep` and the
    two expiries;
  - the class `InmemService`. Its fields are the store. Its methods change them
    in the order the Go code issues its store calls, and each method is proved
    equal to its step function.
- `properties.dfy` (module `ShortenerProperties`): what one call does to the
  store and what it replies.
- `quota.dfy` (module `Quota`): runs of events (calls, code expiries, counter
  expiries) and the quota bound proved by induction over such a run.

Everything the service calls but whose code is not part of this model is a
field of `Env`:

- `govalidator.IsURL`, `helpers.RemoveDomainError`, `helpers.EnforceHTTP` and
  `helpers.Base62Encode` are uninterpreted functions;
- `os.Getenv("API_QUOTA")` and `os.Getenv("DOMAIN")` are constant strings.

`rand.Uint64()` becomes a parameter. Every store call that can fail takes a
flag in `Faults` (or a boolean parameter of `Resolve`) that makes it fail. The
model then follows what the code does with that error: drops it, skips the
check, or returns "Unable to connect to server".

Modelling choices:

- The quota counters are kept as the strings Redis stores (`limits:
  map<string, string>`), not as integers. Only then can the model say two
  things the code depends on:
  - a non-numeric counter reads as 0 through `Atoi` and is refused;
  - a counter whose text is not a canonical integer (an API_QUOTA of "+5",
    say) makes the DECR fail.
- The counters' remaining TTLs are held in `limitTtl` (seconds), because line 79
  reads them. The code TTLs are held in `ttlHours`.

A quota *window* of a client, in `Quota`, is a run of events in which that
client's counter does not expire and no shortening by that client has its GET
of the counter (line 78) fail. Everything else may happen in it: other clients'
calls, resolutions, code expiries, and every other store failure.

What the code does, where a reader might expect otherwise:

- No "missing client id" error exists. The IP is taken from the context, and
  an empty one is only logged (service.go:74-77).
- `rate_limit` in the response is the counter's TTL in whole minutes, not the
  remaining quota. Line 146 overwrites what line 145 stored.
- A counter that cannot be read (an error other than redis.Nil) skips the
  quota check, so the quota can be overspent (`Quota.ReadFailureBypassesQuota`).
- A counter can go negative.
  - When the SET at line 82 fails, the DECR at line 140 creates the counter at
    -1 with no TTL. That client is then refused until the key is removed.
  - A request that skipped the check also decrements.
- The collision test is `val != ""` on a GET whose error is dropped. A failed
  GET therefore lets the SET overwrite an existing mapping
  (`ShortenerProperties.LiveMappingKept` needs the GET to succeed).
- Only successful calls take quota. Calls refused for a bad URL, a bad domain
  or a code in use take none.
- `Resolve` increments the stats counter synchronously and ignores the
  increment's error.

## Model

| member | source | states |
|---|---|---|
| Shortener.InmemService.PostShorten | service.go:64-150 | The store after the call and the reply equal `PostShortenStep` of the store before the call (rate-limit check, URL checks, code choice, collision check, SET, DECR, response), the steps running in the order of the Go code. |
| Shortener.InmemService.CheckCounter | service.go:78-83 | The GET and TTL of the caller's counter, the minutes derived from that TTL, and the SET of a missing counter to API_QUOTA with a 30-minute TTL. A failing SET leaves the store as it was. |
| Shortener.InmemService.CheckRequest | service.go:92-122 | The first failing check among IsURL, the domain check and the collision test on the chosen code. Without a failure, it gives the code (custom or encoded random), the normalised URL and the defaulted expiry. The store is only read. |
| Shortener.InmemService.Commit | service.go:124-149 | The SET of the mapping, then the DECR of the counter, then the response. Either store failure returns "Unable to connect to server" and keeps what was already written. |
| Shortener.InmemService.SetCode | service.go:124 | The code maps to the URL, with a TTL only for a positive expiry. |
| Shortener.InmemService.DecrCounter | service.go:140 | DECR of the caller's counter: the new count written back as decimal text, or nothing written when DECR fails. |
| Shortener.InmemService.Resolve | service.go:152-169 | The reply and the new store equal `ResolveStep`. Only `stats` may change. |
| Shortener.InmemService.ExpireCode | service.go:124 | The store's removal of an expiring code and its TTL, and of nothing else. |
| Shortener.InmemService.ExpireCounter | service.go:82 | The store's removal of an expiring counter and its TTL, and of nothing else. |
| Shortener.InmemService.constructor | service.go:58-62 | A service over exactly the given store and environment (API_QUOTA, DOMAIN and the four helpers). |
| Shortener.AfterQuotaInitWellFormed | service.go:81-82 | Creating a missing counter keeps every TTL on a present key, positive, and for counters at most the 30-minute window. |
| Shortener.CommitWellFormed | service.go:124-143 | The SET and DECR keep the store well formed. A non-positive expiry leaves the code without a TTL, and DECR keeps the counter's TTL. |
| Shortener.PostShortenWellFormed | service.go:64-150 | A whole PostShorten call keeps the store well formed, whatever fails. |
| ShortenerProperties.RateLimitRefusal | service.go:78-87 | The rate-limit error comes back exactly when the caller's counter was read and does not parse to a positive number. The error carries the TTL minutes, and the store is not changed. |
| ShortenerProperties.MissingCounterCreated | service.go:81-82 | When the GET and SET of the counter at lines 78 and 82 work, a caller without a counter has one afterwards, with the 30-minute TTL. It holds API_QUOTA when the call fails and API_QUOTA minus one when the call succeeds. What happens when that SET fails is stated by `FailuresNeverDecrement` and `SuccessCounter`. |
| ShortenerProperties.FailuresNeverDecrement | service.go:92-143 | A failed call leaves the counters as they were after the counter was created. A call refused before the SET writes no mapping. The stats counter never changes. |
| ShortenerProperties.ShortInUseExactly | service.go:104-118 | The code is the custom one when given and otherwise the encoded random number. "Already in use" comes back exactly when the checks before it pass and a working GET returns a non-empty URL for the code. The mapping is then untouched. |
| ShortenerProperties.LiveMappingKept | service.go:114-124 | While the GET of the code works, a mapping to a non-empty URL is never overwritten. |
| ShortenerProperties.MappingsAfterShorten | service.go:124 | The mappings after a call are either the old ones or the old ones with exactly the one SET applied. |
| ShortenerProperties.OtherCodesUntouched | service.go:124 | No code other than the chosen one changes its URL or its TTL. |
| ShortenerProperties.OtherCountersUntouched | service.go:82-140 | No counter other than the caller's changes its value or its TTL. |
| ShortenerProperties.SucceedsExactlyWhen | service.go:84-143 | A call succeeds if and only if: the quota check admits it; the URL and domain checks pass; the collision test finds nothing; the SET and DECR are not failed; DECR accepts the counter. |
| ShortenerProperties.SuccessMapping | service.go:120-124 | On success the code maps to the normalised URL. Its TTL is the expiry in hours (24 for 0), or none for a negative expiry. The stats counter is unchanged. |
| ShortenerProperties.SuccessCounter | service.go:140 | On success the caller's counter parses to one less than just before the DECR, or is "-1" if DECR had to create it. Its TTL and every other counter are unchanged. |
| ShortenerProperties.SuccessResponse | service.go:132-148 | The response holds the normalised URL, DOMAIN + "/" + code, the defaulted (never 0) expiry and reset 30. `rate_limit` is the TTL minutes read at line 79. |
| ShortenerProperties.ResetMinutesRange | service.go:79-86 | In a well-formed store the reported minutes are between 0 and 30. They are 0 for a missing counter, a counter without TTL or a failed TTL read, and otherwise the TTL's whole minutes. |
| ShortenerProperties.ShortenThenResolve | service.go:124-168 | After a successful shortening, resolving its code returns the normalised URL. |
| ShortenerProperties.ResolveReply | service.go:156-168 | Resolve answers the three cases (read failure, missing code, present code). For a present code the stats counter goes up by one when INCR works and is below the int64 maximum, and the store is unchanged otherwise. Nothing but `stats` changes, and it never goes down. |
| ShortenerProperties.ResolveTwice | service.go:156-168 | Resolving a code twice gives the same reply both times. |
| ShortenerProperties.CodeExpiryRemovesOneKey | service.go:124 | A code's expiry removes exactly that code and its TTL. The counters, their TTLs and the stats counter are unchanged. |
| ShortenerProperties.CounterExpiryRemovesOneKey | service.go:82 | A counter's expiry removes exactly that counter and its TTL. The codes, their TTLs and the stats counter are unchanged. |
| ShortenerProperties.FreshCallerSucceeds | service.go:78-149 | With no store failure, a caller without a counter whose URL passes both checks and whose code is free succeeds exactly when API_QUOTA is the text of an int64 above the minimum. |
| Quota.OwnShortenKeepsBudget | service.go:78-140 | A shortening by the caller whose GET of its counter at line 78 works keeps the caller's budget: successes so far plus what the counter still allows stay within the cap, counting this call when it succeeds. |
| Quota.OtherEventKeepsCounter | service.go:140 | No event in the client's window other than the client's own shortening changes its counter. This covers other clients' calls, resolutions, code expiries and other counters' expiries. |
| Quota.BudgetKept | service.go:78-140 | Over a run that stays within the client's window, the successes along the run plus those before it never exceed the cap. |
| Quota.QuotaBound | service.go:78-140 | From a window's start (no counter), a client succeeds at most API_QUOTA times, or once if API_QUOTA is not positive, over any interleaving of events in which the client's counter neither expires nor fails its GET at line 78. |
| Quota.ReadFailureBypassesQuota | service.go:78-88 | A spent counter refuses the call when it is read. When its GET fails, the call succeeds under the same conditions as any other. |
| Quota.ApplyWellFormed | service.go:64-169 | Every event keeps the store well formed. |
| Quota.RunWellFormed | service.go:64-169 | Every run of events keeps the store well formed. |
| Strconv.Clamp64 | service.go:84 | An int64; the number itself when it is in range; positive exactly when the number is. |
| Strconv.Clamp64Nearest | service.go:84 | No int64 is closer to the number than its clamp. |
| Strconv.Atoi | service.go:84 | `Atoi` with its error dropped: always an int64, 0 when ParseInt meets a syntax error, positive exactly when the parsed value is positive, exact in range. |
| Strconv.AtoiDigitsThenJunk | service.go:84 | Digits followed by a non-digit give 0 while the digits fit in 64 bits, and the int64 maximum when they do not. |
| Strconv.AtoiOverflowBeforeJunk | service.go:84 | The text of 2^64 followed by "x" gives the int64 maximum, not 0. |
| Strconv.ParseFormatInt | service.go:140 | The decimal text the store writes for a number parses back to that number. |
| Strconv.AtoiFormatInt | service.go:84 | `Atoi` of the text of an int64 is that int64. |
| Strconv.FormatIntInjective | service.go:140 | Distinct numbers have distinct texts. |
| Redis.IntegerValue | service.go:140 | A string is a Redis integer only when it is the canonical text of an int64. Its `Atoi` is then that value. |
| Redis.IntegerValueFormatInt | service.go:140 | Every int64 the store writes reads back as an integer. |
| Redis.Decremented | service.go:140 | DECR yields -1 on a missing key. A result it yields is an int64 one below the old value's `Atoi`. |
| Redis.DecrementedFormatInt | service.go:140 | DECR succeeds on any text the store wrote, except at the int64 minimum. |
| Redis.TtlMinutes | service.go:146 | A TTL of s seconds, turned into a Duration and divided by Nanosecond and Minute, gives s / 60. |

## Left out

- transport.go, endpoints.go, middlewares.go, resolve.go and cmd/shortener/main.go
  are not part of this model: HTTP routing, JSON coding, go-kit wiring,
  logging, the Fiber duplicate of Resolve, and process start-up.
- Concurrency. The model is sequential, so neither the race between the GET of
  the counter and its DECR, nor the check-then-set on codes, is represented.
- The clock. TTLs are numbers that do not count down. A key goes away only
  through an explicit expiry event, and counter windows are whole events.
- Shortener.PostShortenStep: the TTL of the mapping is kept as the hour count.
  The int64 nanosecond overflow of `expiry * 3600 * time.Second` for very large
  expiries is not modelled.
- The `time.Duration` type of `expiry` and `rate_limit_reset` is modelled as a
  plain integer. The text of the rate-limit error is the `RateLimitExceeded`
  constructor carrying the minutes; the exact formatting of `fmt.Sprint` on a
  Duration is not modelled.
- `ctx.Value("ip").(string)` panics when no IP is set, and none of
  transport.go, endpoints.go or cmd/shortener/main.go puts "ip" in the context.
  As wired, every PostShorten would therefore panic at service.go:74. The model
  takes the IP as a parameter.
- Database 1 keeps the stats counter under the key `"counter"`, next to the
  IPs. The model keeps `stats` in a field of its own, so a client whose IP is
  literally "counter" does not share it.
- Internals of govalidator, the helpers package, math/rand and os.Getenv (see
  `Env`). Redis connection handling and `Close`.
- Unused state: `inmemService.mtx` and `m`, `NewInmemService`'s map and the
  `Address` type. The error values `ErrInconsistentIDs`, `ErrAlreadyExists` and
  `ErrNotFound` are never returned by service.go (transport.go compares
  errors against them); they are not modelled.
- Go's `int` is taken to be 64 bits wide, as on the platforms the service is
  built for. The Atoi result range and its fast path for strings shorter than
  19 bytes follow from that; a 32-bit build is not modelled.
- The class carries no well-formedness invariant of its own. Well-formedness
  of the store is stated and proved about the step functions
  (`Shortener.PostShortenWellFormed`, `Quota.RunWellFormed`).
