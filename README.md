# ooauth2 transport, modelled in Dafny

This project models the core of the ooauth2 Go package: the `Transport` that
attaches an OAuth 2.0 bearer token to every outgoing HTTP request and keeps
that token fresh (`transport.go`). It covers these parts:

- the `Token` value and its freshness predicates `Expired`, `ExpiringWithin`
  and `ExpiringSoon`, plus the `Extra` lookup into the server's raw metadata
  (`token.dfy`, module `Tokens`);
- the check-and-refresh decision over the cached token slot, as a function
  (`refresh.dfy`, module `TokenRefresh`). It comes with lemmas about a series
  of calls made at one instant: one fetch per staleness episode, every
  caller gets the same token, and a failed fetch is retried on the next call;
- the `Authorization` header value, and the split a receiver makes of it back
  into scheme and credential (`authorization.dfy`, module `Authorization`);
- the life of the response-body release callback over any series of reads
  and closes (`body_events.dfy`, module `BodyEvents`);
- the stateful part as classes (`transport.dfy`, module `OAuthTransport`):
  - `Transport` holds the `token` slot, the `modReq` table and the
    `hasStore` option. Its methods are `RefreshToken`, `CheckAndRefreshToken`,
    `SetModReq`, `RoundTrip` and `CurrentToken`;
  - `CloneRequest` copies a request's header map key by key into a new
    `Header` object;
  - `OnEOFReader` wraps a response body. Its methods are `Read`, `Close` and
    `RunFunc`.

Time is a whole number of seconds. The current instant `now` is an argument
instead of a `time.Now()` call. A zero `time.Time` expiry is `None`.

The collaborators the transport calls are oracles, passed in as arguments:

- `answer` is what the token fetcher returns if it is asked;
- `dispatched` is what the base transport returns for the copy;
- `inner` is what the underlying body returns from a read or a close.

Ghost logs on `Transport` record the collaborator calls:

- `fetchLog` holds the argument of each fetcher call;
- `storeLog` holds each token written to the token store;
- `sent` holds each request handed to the base transport.

The method contracts state the new token slot, the new table and these logs
in terms of the old ones. `CheckAndRefreshToken` and `RoundTrip` are also
tied to the function `TokenRefresh.CheckAndRefresh`, so the lemmas about a
series of calls apply to the methods.

**Code versus documentation.** The doc comment on `ExpiringWithin` says it
reports a token that expires within the window. The code computes
`expiry + window < now`, not `expiry < now + window`. For any window of zero
or more, `ExpiringWithin` is therefore `Expired` restricted to tokens that
have an expiry. The model follows the code:

- `Tokens.Token.ExpiringWithin` states this collapse;
- `Tokens.ExpiringWithinMissesWindow` shows a token that expires in 30
  seconds, which the documented 60-second window contains but
  `ExpiringSoon` does not report.

A related consequence is that a cached token with an empty access token and
no expiry is expired, but it is never refreshed
(`TokenRefresh.EmptyTokenWithoutExpiryIsServed`).

## Model

| member | source | states |
|---|---|---|
| `Tokens.Token.Expired` | transport.go:74-84 | expired iff the access token is empty or the expiry is set and strictly before now; an empty access token is always expired, a non-empty one without expiry never |
| `Tokens.Token.ExpiringWithin` | transport.go:63-72 | never true without an expiry, even for an empty access token; for a window of zero or more it holds exactly when there is an expiry and the token is expired |
| `Tokens.Token.ExpiringSoon` | transport.go:57-61 | holds exactly when the token has an expiry and is expired (ExpiringWithin with the 60-second margin, collapsed) |
| `Tokens.Token.Extra` | transport.go:41-55 | form values give the first value for the key, JSON maps give a string field, anything else gives ""; a non-empty result is always a value stored under the key |
| `Tokens.ExpiringWithinImpliesWindow` | transport.go:63-72 | for a window of zero or more, what the code reports is also reported by the documented reading (expiry before now plus window) |
| `Tokens.ExpiringWithinMissesWindow` | transport.go:57-72 | the converse fails: a live token expiring in 30 s lies inside the 60 s window but is not reported; with a 10 s window both readings say not expiring |
| `Tokens.NoExpiryNeverExpires` | transport.go:65-82 | a token with an access token and no expiry is neither expired nor expiring within any window |
| `Tokens.ExpiringSoonMonotone` | transport.go:59-84 | a token expiring soon at one instant is expiring soon at every later instant |
| `Tokens.ExtraReadsFormValue` | transport.go:46-48 | Extra returns the first form value stored under the key |
| `Tokens.ExtraReadsJsonString` | transport.go:49-53 | Extra returns a JSON string field, and "" when the field holds another type |
| `TokenRefresh.CheckAndRefresh` | transport.go:151-193 | the fetcher is asked iff the slot is empty or expiring soon; a served token is the cached one afterwards; without a fetch the cached token is returned unchanged and is not expiring soon; a fetch error is returned with the slot unchanged |
| `TokenRefresh.Run` | transport.go:151-181 | a series of calls at one instant, each fed the slot the previous call left, yields one step per call |
| `TokenRefresh.UsableTokenIsShared` | transport.go:152-156 | while the cached token is usable, every call returns it and none asks the fetcher |
| `TokenRefresh.OneFetchPerEpisode` | transport.go:151-181 | when the fetcher hands out tokens usable now, a series of calls at now asks it exactly once if the slot needed a refresh (never otherwise), and every call returns the same token |
| `TokenRefresh.EmptyTokenWithoutExpiryIsServed` | transport.go:156-166 | a cached token with an empty access token and no expiry is expired yet returned without a fetch |
| `TokenRefresh.FailureRetriesNextCall` | transport.go:166-172 | a failed fetch leaves the slot stale, so the next call at the same instant fetches again |
| `Authorization.Scheme` | transport.go:121-124 | the token type, or "Bearer" when it is empty; never empty |
| `Authorization.AuthorizationValue` | transport.go:121-125 | the header value is the scheme, one space, then the access token, and nothing else |
| `Authorization.AuthorizationRoundTrip` | transport.go:121-125 | splitting the header value at its first space gives back the scheme and the access token, whenever the token type has no space |
| `Authorization.DefaultBearerHeader` | transport.go:121-125 | a token "abc" without a type yields exactly "Bearer abc" |
| `BodyEvents.After` | transport.go:228-246 | the callback stays armed until a read reports end-of-file or the body is closed, and is never re-armed |
| `BodyEvents.DisarmedNeverRuns` | transport.go:242-246 | once cleared, the callback runs no more over any series of calls |
| `BodyEvents.RunsAtMostOnce` | transport.go:228-247 | over any series of reads and closes the callback runs at most once; it runs iff some read reports end-of-file or the body is closed, and not before the first such call |
| `OAuthTransport.CloneRequest` | transport.go:209-221 | the copy is a new request with a new header object holding the same entries, and shares the other fields |
| `OAuthTransport.Header.Set` | transport.go:125 | the key's values are replaced by the single value, other keys unchanged |
| `OAuthTransport.Transport.constructor` | transport.go:99-105 | a transport starts with the given token, a nil table and empty logs |
| `OAuthTransport.Transport.CurrentToken` | transport.go:140-146 | returns the cached token without refreshing |
| `OAuthTransport.Transport.RefreshToken` | transport.go:183-193 | the fetcher is called once with the cached token; on error the error is returned and the slot kept, on success the slot holds the fetched token |
| `OAuthTransport.Transport.CheckAndRefreshToken` | transport.go:148-181 | a usable cached token is returned with no fetch and no store write; otherwise one fetch with the cached token: on error that error, slot unchanged, no store write; on success the fetched token is cached and returned and written to the store exactly once iff a store is configured |
| `OAuthTransport.Transport.SetModReq` | transport.go:196-207 | a nil table is first made empty; nil removes the key, anything else maps the key to it; every other entry unchanged |
| `OAuthTransport.Transport.RoundTrip` | transport.go:107-138 | a refresh error is returned with no request sent and the table untouched; otherwise exactly one fresh copy is sent whose header is the caller's plus Authorization = scheme + " " + access token, and the caller's header is unchanged; a base error removes the entry for the request and is returned unchanged; a success returns the base response with its body wrapped in a fresh armed reader that releases that entry, and the entry maps the request to the copy |
| `OAuthTransport.SendAndRelease` | transport.go:126-136 | once a token was obtained, sending a request and then reading its body to end-of-file, or closing it early, leaves no table entry for it and every other entry as it was; a refresh error is returned with the table untouched; the caller's header never changes |
| `OAuthTransport.OnEOFReader.constructor` | transport.go:133-136 | the wrapper starts with its callback armed and not yet run |
| `OAuthTransport.OnEOFReader.Read` | transport.go:228-234 | the underlying read result is returned unchanged; a read that reports end-of-file runs the armed callback (dropping the table entry, leaving the token slot and the logs as they were) and disarms it; any other read changes nothing |
| `OAuthTransport.OnEOFReader.Close` | transport.go:236-240 | the underlying close result is returned unchanged and the callback, if armed, runs (dropping the table entry, leaving the token slot and the logs as they were) and is cleared |
| `OAuthTransport.OnEOFReader.RunFunc` | transport.go:242-247 | an armed callback runs once, dropping its table entry and leaving the token slot and the logs as they were, and is cleared; a cleared one does nothing; the run count never exceeds one |

## Left out

- Locking (`sync.RWMutex`), the unlocked fast-path read of the token slot and concurrency in general: calls are modelled one after another. The double check in `CheckAndRefreshToken` is kept as written. "One fetch per staleness episode" is proved for calls in sequence (`TokenRefresh.OneFetchPerEpisode`).
- `time.Now()`, `time.Time` and `time.Duration`: replaced by whole seconds and an explicit `now`. Go's nanosecond resolution and the saturation of `time.Time.Add` are not modelled.
- The token fetcher, the token store and the base transport are external collaborators. The fetcher's and the base transport's answers are arguments. The store is a ghost log, and its write result is ignored as in the source. A fetcher that returns a nil token with a nil error is not modelled: the answer is always a token or an error.
- `http.Request`, `http.Response` and `io.ReadCloser` internals. A request is its header object plus opaque fields. A response is a status plus a body. A body read is modelled as its `(n, err)` result, with no buffer.
- Canonicalisation of header keys in `Header.Set`: the only key the transport writes, "Authorization", is already canonical.
- `url.Values.Get` is modelled as "first value for the key, or the empty string". Go's dynamic type assertions on `raw` are a tagged variant.
- JSON struct tags on `Token`.
- `newTransport`'s `base` and `opts` arguments. The model keeps only whether a token store is configured.
- `example_test.go`: a usage example with console I/O that calls functions outside this core; its test is empty.
