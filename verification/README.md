# OAuth grants, token stores and rate limits: a verified model

This project models the OAuth 2.1 authorization server of a Redmine MCP gateway and proves properties of it.
The server is a small protocol: a client registers, a user logs in with a Redmine URL and API key and gets an
authorization code, the code is redeemed for an access token and a refresh token, refresh tokens roll, access
tokens are looked up by the tools and can be revoked. All of it lives in a store with two backends, five
dictionaries in memory or one flat keyspace in Redis, and three endpoints are rate limited per address.

## How the model is laid out

| files | content |
|---|---|
| `Sessions`, `TokenStore` | sessions, codes, clients, windows; the store operations on values; what a log of operations means |
| `InMemoryTokenStore` | the in-memory store as a class that keeps session objects by reference |
| `RedisKeys`, `RedisSpec`, `RedisRefinement`, `RedisLive`, `RedisTokenStore` | the flat keyspace, its deadlines, the simulation of the in-memory store, and the Redis store as a class |
| `RedisRuns` | the same handlers answered by the keyspace: every history of the server on Redis is a run |
| `RateLimiter`, `RateTightness`, `LoginLimit` | the fixed-window counter over arbitrary intervals, why its bound cannot be improved, and the two layers of the login limit in whole runs |
| `Pkce` | the S256 comparison with base64url written out |
| `Grants` | every request as a coroutine: 21 actions, each the stretch between two `await` points; any request may move next |
| `Frames`, `Lineage`, `LineageInvariant`, `LineageTheorems` | what each step may touch; one live credential per login; single use; chains that never branch |
| `Provenance`, `Chains`, `Lifetime` | where tokens come from, the login at the root of every pair, and how long tokens can live |
| `Handlers`, `Traces`, `Origins`, `Redemption` | each stretch with its tests and answers written out; runs with the steps that made them; logins, registrations and token requests from what was submitted to what it came to |
| `CodeRuns`, `RefreshRuns`, `AccessRuns`, `ActiveClient` | exactly when a code, a refresh token and an access token that were handed out are honoured; clients that refresh in time |
| `PendingCodes`, `Registration`, `Replies`, `Revocation` | bounded pending codes; registration and authorization agree; what each answer says about the history; revoked means revoked |
| `Ownership`, `OAuthServer` | the same 21 actions on objects, with `expires_at` overwritten in place |

A *run* is any finite interleaving of any number of requests, starting from the empty store. A *trace* is a run with
the step that led to each state, so with everything that clients submitted and that Redmine and the token generator
answered; every run has one (`Traces.RunIsRecorded`). The state carries a
log of events (logins, pops, redemptions, issues, lookups, rate checks) that no handler reads; whole-run theorems
speak about that log, and the client deadline of a Redis tick is stated with it.

## Results worth knowing

* `OAuthServer.Server.Step` and `RedisRuns.HistoryIsRun`: every history of the in-memory server on shared session
  objects, and every history of the server on the Redis keyspace, is a run of `Grants`, so every theorem about
  runs holds of both. In memory `Ownership.OverwriteIsLocal` is the reason: no session object is ever in two
  places. With Redis it is that time takes nothing before it is due (`RedisLive.VanishedIsLate`).
* `LineageTheorems`: each login has at most one live descendant among stored codes, requests in progress and
  stored refresh tokens, in every interleaving; a failed attempt burns its credential for good.
* `Origins.LoginWasEarned`: no code is ever sent without a form submitted within both limits, a good CSRF token, an S256
  challenge, an allowed redirect URI and an answer of Redmine that names exactly the identity logged, in this order;
  conversely `Origins.HourDecides`, `Origins.RedirectDecides`, `Origins.RejectedIsTurnedAway` and
  `Origins.ConfirmedLoginIsWelcome` say what becomes of each login for good. `Origins.RegistrationWasSubmitted` and
  `Origins.SubmissionDecides` do the same for registrations.
* `Redemption.CodeIsHonoured`, `Redemption.RefreshIsHonoured`, `Redemption.LookupIsHonoured`: the same conditions as in
  the next item, from the form that was posted to the answer that stays, with every field and every error code
  written out.
* `CodeRuns.RedeemedIffHonoured`, `RefreshRuns.RefusedIffSpentOrExpired`, `AccessRuns.AcceptedIffUnrevokedInTime`:
  for each kind of token that was handed out, the exact condition under which it is honoured, in every run of
  either backend; only in the last second before the bound may Redis differ from memory.
* `ActiveClient.NeverLoggedOut`: for every number of refreshes, a client that presents each refresh token it is
  given in time and before anybody else is honoured every time, for the identity of one login.
* `Chains.PairIsForItsLogin` and `Provenance.AcceptedTokensHaveProvenance`: every pair ever issued is for the
  identity that the login at the root of its lineage validated, and every accepted token is the end of a chain of
  links, each honoured within its time and with everything the code was bound to.
* `Replies.RunRefusedExactly`: 429 is answered exactly to the requests one of whose checks was over the limit.
  `Revocation.RevokedIsNeverAccepted`: a token that was handed out and revoked is never accepted again, while the
  refresh token of its pair stays good (`Revocation.RevocationSparesRefresh`).
* `RateLimiter.AdmittedBound` is one better than the usual estimate for a fixed window: at most
  limit * (ceil(T / w) + 1) - 1 requests in any interval of length T > 0, and `RateTightness.BoundIsReached` shows
  that this is reached for every positive limit, every window and every T. In one window length that is 2 * limit - 1.

## What is assumed

* The clock is positive and never runs backwards; it is a real number of seconds. `is_expired` takes a zero
  argument for a missing one (auth/store.py:29), which a positive clock never meets. Client and server read the
  same clock; every `time.time()` may be taken at a different instant.
* `secrets.token_urlsafe` returns a nonempty string that was never returned before.
* SHA-256 and `urlparse` are arbitrary functions (`urlparse` may fail, which ends a request with a server error).
  Fernet satisfies decrypt(encrypt(x)) = x. Redmine's answer and the CSRF check are inputs of the steps.
* A Redis key is invisible from its deadline on; each command, the INCR + EXPIRE NX pipeline, and the GET of a
  lookup with the DEL that may follow it, are one step each. In the runs of `Grants` a tick of a Redis backend may
  drop a session, code or refresh token only less than a second before its own bound, and drops a client exactly
  when its TTL is over; `RedisRuns` derives this from the keyspace and its deadlines.
* TTLs are natural numbers, windows 60 and 3600 seconds, limits natural numbers; the Redis client TTL is positive.
* Text outside ASCII in a verifier or a challenge makes the comparison raise, which ends the request with
  status 500.

Where code and documentation differ the model follows the code: the in-memory store never expires client records
(the module comment of auth/token_store.py gives them a TTL), no registration ever refreshes an earlier record
(config.py:91 says it does, but every registration mints a new `client_id`), and revocation deletes access
sessions only, so the refresh token of the same pair stays good.

## Model

| member | source | states |
|---|---|---|
| Sessions.UserSession.IsExpired | auth/store.py:28-29 | A session is dead at its own `expires_at`; an omitted or zero argument means the clock. |
| TokenStore.GetSessionMeansStanding | auth/token_store.py:83-107 | A lookup answers the last write of the token that no deletion followed, iff that write has not expired, whatever lazy deletions and purges came between. |
| TokenStore.PopRefreshMeansStanding | auth/token_store.py:139-150 | A pop answers the last write of the refresh token that no pop followed, iff it has not expired. |
| TokenStore.PopCodeMeansStanding | auth/token_store.py:111-125 | A popped code can be redeemed iff it is the standing write and its inclusive bound has not passed. |
| TokenStore.ClientsTrack | auth/token_store.py:129-135 | A client record is the last one written, for ever. |
| TokenStore.RevokedStaysRevoked | auth/routes.py:502-511 | A revoked access token is never accepted again unless stored again, and every other token is answered as if nothing had happened. |
| TokenStore.PurgingIsInvisible | auth/token_store.py:101-125 | Leaving all purges out of a log, whatever old clock readings they used, changes no later lookup, refresh, redemption or client lookup. |
| TokenStore.PurgesLeaveRates | auth/token_store.py:101-125 | Nor does it change any rate counter. |
| InMemoryTokenStore.InMemoryTokenStore.PutSession | auth/token_store.py:83-85 | Stores the object itself; the values behind the references change at this token only. |
| InMemoryTokenStore.InMemoryTokenStore.GetSession | auth/token_store.py:87-95 | Returns the stored object while it is unexpired, and otherwise drops the entry. |
| InMemoryTokenStore.InMemoryTokenStore.DeleteSession | auth/token_store.py:97-99 | Removes exactly this token. |
| InMemoryTokenStore.InMemoryTokenStore.PurgeExpiredSessions | auth/token_store.py:101-107 | Removes exactly the sessions expired at its reading and returns their number. |
| InMemoryTokenStore.InMemoryTokenStore.ExpiredTokens | auth/token_store.py:104 | The list built before popping holds every expired token once. |
| InMemoryTokenStore.InMemoryTokenStore.PutCode | auth/token_store.py:111-113 | Stores the record with the session object it refers to. |
| InMemoryTokenStore.InMemoryTokenStore.PopCode | auth/token_store.py:115-117 | Hands the record over and removes it, expired or not. |
| InMemoryTokenStore.InMemoryTokenStore.PurgeExpiredCodes | auth/token_store.py:119-125 | Removes exactly the codes past their inclusive bound and returns their number. |
| InMemoryTokenStore.InMemoryTokenStore.OverdueCodes | auth/token_store.py:122 | The list built before popping holds every overdue code once. |
| InMemoryTokenStore.InMemoryTokenStore.PutClient | auth/token_store.py:129-131 | Stores the client record. |
| InMemoryTokenStore.InMemoryTokenStore.GetClient | auth/token_store.py:133-135 | Returns the stored record, if any. |
| InMemoryTokenStore.InMemoryTokenStore.PutRefresh | auth/token_store.py:139-141 | Stores the object itself under the refresh token. |
| InMemoryTokenStore.InMemoryTokenStore.PopRefresh | auth/token_store.py:143-150 | Removes the token in any case and hands its session over only while it is unexpired. |
| InMemoryTokenStore.InMemoryTokenStore.IncrRate | auth/token_store.py:154-162 | Opens a new window when the old one has closed, counts the call, and returns the count. |
| RedisKeys.KeysDoNotCollide | auth/token_store_redis.py:28-32 | Two keys are equal only if kind and name are, for arbitrary names. |
| RedisKeys.RateKeyInjective | auth/routes.py:126-128 | One counter per endpoint, window and address, even if the address contains colons. |
| RedisSpec.DocRoundTrip | auth/token_store_redis.py:48-64 | Sessions and code records survive serialization, whatever nonce the encryption drew. |
| RedisSpec.DeadlineSlack | auth/token_store_redis.py:66-68 | The TTL is the whole seconds left at the reading, at least one; so a key lives at least one second and never vanishes a full second before its record expires; it outlives the record only by the one-second minimum or a late write. |
| RedisSpec.OnlyTargetChanges | auth/token_store_redis.py:72-186 | Each operation leaves every key but its own exactly as it was, deadline included. |
| RedisRefinement.RedisGetSession | auth/token_store_redis.py:72-92 | A Redis lookup answers the standing write iff neither its bound nor its deadline has passed. |
| RedisRefinement.RedisPopRefresh | auth/token_store_redis.py:154-173 | The same for refresh tokens. |
| RedisRefinement.RedisPopCode | auth/token_store_redis.py:103-129 | A Redis pop answers the standing code iff its deadline has not passed. |
| RedisRefinement.RedisSimulatesMemory | auth/token_store_redis.py:66-92 | Over any common log, what Redis accepts memory accepts with the same contents; the converse fails at most in the open last second before `expires_at`. |
| RedisRefinement.RedisSimulatesMemoryCodes | auth/token_store_redis.py:103-129 | The same for codes and the check their redeemer makes. |
| RedisRefinement.RedisRefusesExactlyAfterDeadline | auth/token_store_redis.py:66-92 | Redis refuses a session, a refresh token or a code that memory hands out iff the truncated deadline of its last write has passed. |
| RedisRefinement.SlackIsReached | auth/token_store_redis.py:66-68 | A session with nearly two seconds to live is refused by Redis after one. |
| RedisRefinement.RateCountersAgree | auth/token_store_redis.py:177-186 | On every log INCR with EXPIRE NX returns the count of the (count, window_end) pair. |
| RedisRefinement.RedisGetClient | auth/token_store_redis.py:136-150 | Redis answers a client record until the client TTL after its last write, memory for ever. |
| RedisLive.OperationStands | auth/token_store_redis.py:72-186 | Where the visible keys stand for a store, each operation, purges included, answers like that store and leaves the keys standing for what the store becomes; purges leave expiry to the server and answer 0. |
| RedisLive.TimeTakes | auth/token_store_redis.py:9-12 | The passage of time does nothing to the keyspace but take visible records away. |
| RedisLive.OperationDates | auth/token_store_redis.py:66-77 | Every operation keeps every record in the keyspace until less than a second before its own bound. |
| RedisLive.VanishedIsLate | auth/token_store_redis.py:66-68 | What time takes from the keyspace is less than a second from its own bound. |
| RedisLive.RedisIsADecayingStore | auth/token_store_redis.py:72-186 | Over any log Redis answers exactly like an in-memory store from which time has taken records, none of them before it was due. |
| RedisTokenStore.RedisTokenStore.PutSession | auth/token_store_redis.py:72-77 | Writes a snapshot under the session key with the truncated TTL; carries the store it stands for along. |
| RedisTokenStore.RedisTokenStore.GetSession | auth/token_store_redis.py:79-92 | Builds a new object from the snapshot, or deletes a record that is unreadable or expired. |
| RedisTokenStore.RedisTokenStore.DeleteSession | auth/token_store_redis.py:94-95 | Removes exactly this session key. |
| RedisTokenStore.RedisTokenStore.PurgeExpiredSessions | auth/token_store_redis.py:97-99 | Returns 0 and leaves the keyspace as it is, which is what every store it stands for shows. |
| RedisTokenStore.RedisTokenStore.PurgeExpiredCodes | auth/token_store_redis.py:131-132 | The same for codes. |
| RedisTokenStore.RedisTokenStore.PutCode | auth/token_store_redis.py:103-117 | Writes a snapshot of the record and of its session. |
| RedisTokenStore.RedisTokenStore.PopCode | auth/token_store_redis.py:119-129 | Reads and removes in one command, and answers with a new object. |
| RedisTokenStore.RedisTokenStore.PutClient | auth/token_store_redis.py:136-141 | Writes the record with the client TTL. |
| RedisTokenStore.RedisTokenStore.GetClient | auth/token_store_redis.py:143-150 | Answers what the store it stands for answers. |
| RedisTokenStore.RedisTokenStore.PutRefresh | auth/token_store_redis.py:154-159 | Writes a snapshot under the refresh key with the truncated TTL. |
| RedisTokenStore.RedisTokenStore.PopRefresh | auth/token_store_redis.py:161-173 | Reads and removes in one command; an expired session is not handed out. |
| RedisTokenStore.RedisTokenStore.IncrRate | auth/token_store_redis.py:177-186 | Counts like the store it stands for; only the first count of a window sets a deadline. |
| RedisTokenStore.OperationPerforms | auth/token_store_redis.py:72-186 | Every operation on the keyspace is the in-memory operation on every store it can stand for, with purges as no-ops. |
| RedisRuns.StepIsAnswered | auth/routes.py:145-568 | Every step is a handler that sees nothing of the store but the answer to its one operation. |
| RedisRuns.TickIsSimulated | auth/token_store_redis.py:9-12 | When the clock moves, the keyspace loses exactly what a run allows: nothing early, and each client when its TTL is over. |
| RedisRuns.HistoryIsRun | auth/token_store_redis.py:42-186 | Every history of the server on Redis is a run with the same requests, answers and log. |
| RateLimiter.WindowNeverExtends | auth/token_store.py:156-162 | No check, refused ones included, pushes a window's end further than one window length past itself. |
| RateLimiter.AdmittedBound | auth/token_store.py:154-162 | In any half-open interval of length T > 0 at most limit * (ceil(T / w) + 1) - 1 checks of a key are admitted, and none in an empty one. |
| RateLimiter.FewerThanTwiceTheLimit | auth/routes.py:128-142 | Fewer than twice the limit in any interval of one window length. |
| RateTightness.BoundIsReached | auth/token_store.py:154-162 | For every limit, window and interval length some run admits exactly that many, so the bound cannot be improved. |
| RateTightness.TwiceTheLimitMinusOneIsReached | auth/token_store.py:154-162 | In one window length 2 * limit - 1 is reached for every positive limit and window. |
| RateLimiter.RetryAfterSuffices | auth/routes.py:137-141 | Waiting `Retry-After` seconds ends the window that caused the refusal, whatever was checked meanwhile. |
| LoginLimit.LoginAttemptsAreLimited | auth/routes.py:283-288 | In any run each layer bounds the login attempts from one address that it lets through, successful or not; those that both let through in an interval are at most the smaller bound. |
| LoginLimit.LoginsAreLimited | auth/routes.py:283-288 | The same for the logins that succeed. |
| LoginLimit.HourBudgetNeedsMinuteAdmission | auth/routes.py:283-288 | A request refused by the minute layer never consumes hour budget. |
| LoginLimit.RunCounted | auth/routes.py:122-142 | In every reachable state the stored counters are those of the logged checks, and a refused request never logs in. |
| Pkce.DecodeInvertsEncode | auth/routes.py:61 | Unpadded base64url has an inverse on all byte sequences; section 5 of RFC 4648. |
| Pkce.UnpaddedLength | auth/routes.py:61 | Stripping removes padding only: ceil(4n / 3) characters, all of them letters of the base64url alphabet; 32 bytes give 43. |
| Pkce.GroupsAreSame | auth/routes.py:61 | Every 24 bits of the input, filled up with zeros at the end, are the four letters at the same place: the encoding is the one of section 4 of RFC 4648, not just some invertible one. |
| Pkce.AlphabetIsStandard | auth/routes.py:61 | The letters are those of table 2 of RFC 4648. |
| Pkce.BytesAreCodes | auth/routes.py:60 | The bytes that are hashed are the codes of all characters of the verifier, in order. |
| Pkce.VerifyMeansDigest | auth/routes.py:59-62 | For whatever bytes the verifier's characters are: verification succeeds iff the text is ASCII and the encoding of the digest of exactly these bytes is the challenge; it raises iff a character of either text is outside ASCII. Section 4.6 of RFC 7636. |
| Grants.OutcomeMeansHonoured | auth/routes.py:421-460 | A pair may be issued iff the code was there, within its bound, and presented with the redirect URI, the client and the verifier it was bound to. |
| Grants.RefusalCodes | auth/routes.py:421-460 | Which error code each refused redemption gets. |
| Grants.PurgeKeepsOutcome | auth/routes.py:422-430 | A purge changes neither status nor error code of a redemption. |
| Frames.StepFrame | auth/routes.py:269-568 | Each step moves one request, logs at most one event of its own kind, and leaves the rest of the state alone. |
| Handlers.NothingIsStuck | auth/routes.py:269-568 | Whatever the others do, every request under way has a step that moves it on. |
| Handlers.LoginPurgeMeans | auth/token_store.py:119-125 | A login's purge takes from memory exactly the codes whose bound lies before its reading, and changes no other. |
| Handlers.RevokePurgeMeans | auth/token_store.py:101-107 | A revocation's purge takes from memory exactly the sessions that have reached their bound at its reading, changes no other, and the answer is an empty 200. |
| Handlers.RegisterMintMeans | auth/routes.py:536-555 | A list of web URIs is kept as it was submitted, under the id drawn and dated by the whole second; otherwise the first bad URI decides between a refusal and a server error. |
| Traces.RunIsRecorded | auth/routes.py:269-568 | Every run is the run of some trace. |
| Traces.TraceWellFounded | auth/routes.py:269-568 | In every state of every trace, whatever is under way or logged was preceded, in order, by the steps of the same request that it needs, with the values it carries. |
| Traces.OpenedOnce | auth/routes.py:269-568 | A request is opened by one step. |
| Traces.LoginIsAboutItsForm | auth/routes.py:275-340 | A login under way carries the form and the address that its first step submitted. |
| Traces.TokenIsAboutItsRequest | auth/routes.py:386-420 | A token request under way carries what its first step posted, and is of the grant type it posted. |
| Origins.LoginWasEarned | auth/routes.py:283-367 | Every logged login was preceded by these six steps of its request in this order: this very form within the minute limit, a passed hour check with a good CSRF token and an S256 challenge, an allowed redirect URI, Redmine naming exactly this identity, the purge, the drawing of exactly this code. |
| Origins.HourDecides | auth/routes.py:286-333 | Against the form submitted: over the hour limit 429, with a bad CSRF token, no challenge or another method the form again, both for good and never to become a login; otherwise, and only then, the login goes on with that form. |
| Origins.RedirectDecides | auth/routes.py:335-340 | A redirect URI that is not allowed gets the form again for good, one that cannot be parsed a server error, any other goes on. |
| Origins.RejectedIsTurnedAway | auth/routes.py:342-354 | A URL or key that Redmine does not accept gets the form again for good, and its request is a login in no later state. |
| Origins.ConfirmedLoginIsWelcome | auth/routes.py:342-378 | A login that Redmine confirmed is never refused: in every later state it is on its way to its code or was redirected with it, and it is logged for the confirmed identity with the form submitted. |
| Origins.RegistrationWasSubmitted | auth/routes.py:536-555 | Every logged registration is the list its request submitted under the id it drew; as long as it is on record every URI of that list but the empty one is allowed to that id. |
| Origins.SubmissionDecides | auth/routes.py:536-568 | A list of web URIs gets the id drawn with exactly this list behind it; anything else is refused for good, with a server error if a URI that cannot be parsed comes first. |
| Redemption.GrantIsChosen | auth/routes.py:385-420 | Within its limit a token request goes on to take exactly the code or refresh token it posted, by its grant type; everything else is answered for good with its own error. |
| Redemption.HonouredMeans | auth/routes.py:426-460 | The tests of a redemption field by field: bound, redirect URI, client, verifier present, ASCII, digest; and the error of each. |
| Redemption.PresentedCodeIsTaken | auth/routes.py:418-424 | Who posts a code that was sent out gets hold of what its login recorded, unless it was taken before or is late; whoever does not is answered invalid_grant. |
| Redemption.CodeIsHonoured | auth/routes.py:385-470 | From the form posted to the answer: a code presented first and in time is honoured iff the check finds it within its bound, with the redirect URI and client of the login form and a verifier whose digest is that form's challenge; honoured means never refused afterwards, and otherwise the error that says what was wrong stays. |
| Redemption.RefreshIsHonoured | auth/routes.py:385-495 | From the form posted to the answer: a refresh token that was handed out is honoured while unspent and within its bound, for good, and refused for good otherwise; only Redis may refuse it in its last second. |
| Redemption.LookupIsHonoured | server.py:46-55 | A lookup of a token that was handed out is logged as accepted with the identity and bound of its issue while it is unrevoked and in time, and is otherwise not logged; only Redis may refuse it in its last second. |
| Redemption.PairWasAskedFor | auth/routes.py:385-495 | Every pair was issued to a request that posted the very credential it was issued for, by the grant of its type. |
| Redemption.AcceptanceWasLookedUp | server.py:46-55 | Every logged acceptance was a lookup of that token which found that session before its bound. |
| LineageInvariant.StepKeepsInv | auth/routes.py:145-511 | Every step keeps: one live credential per login, what is live was never popped, no credential is popped or paid for twice. |
| LineageInvariant.RunInv | auth/routes.py:145-511 | That invariant holds in every reachable state. |
| LineageTheorems.OneLiveCredentialPerLogin | auth/routes.py:145-171 | Two live credentials never descend from the same login, wherever they are. |
| LineageTheorems.LiveCredentialsNeverExceedLogins | auth/routes.py:145-171 | Stored codes, requests carrying a credential and stored refresh tokens together never outnumber logins. |
| LineageTheorems.SingleUse | auth/routes.py:418-461 | A credential is popped once, pays for one pair, and only the request that popped it is paid; section 4.1.2 of RFC 6749. |
| LineageTheorems.FailedAttemptBurnsCredential | auth/routes.py:418-455 | Once the request that popped a credential was answered with an error, no pair was issued for it and nothing holds it any more. |
| LineageTheorems.SameGenerationSamePair | auth/routes.py:145-171 | Of one login and one generation there is at most one pair. |
| LineageTheorems.PairsFormAChain | auth/routes.py:473-495 | The pairs of one login form a chain that never branches, each paid with the refresh token of the one before. |
| Provenance.RunTraced | auth/routes.py:356-495 | In every reachable state each stored or held record is what its chain in the log wrote. |
| Provenance.WhoIsTheLogins | auth/routes.py:158-164 | Along a chain the identity stays the one its login validated. |
| Provenance.AcceptedTokensHaveProvenance | server.py:46-55 | Every accepted token is the end of a chain login, redemption, refreshes, in this order, each within its TTL and with all that the code was bound to. |
| Chains.PairIsForItsLogin | auth/routes.py:158-171 | Every pair ever issued, accepted or not, is for the identity that the login at the root of its lineage validated. |
| Lifetime.IssueBound | auth/routes.py:152-164 | The pair after k refreshes is issued by code_ttl + k * refresh_ttl after the login plus k + 1 delays, strictly before if k > 0. |
| Lifetime.AcceptedWithinLifetime | auth/store.py:28-29 | A token is accepted only before that time plus access_ttl. |
| CodeRuns.CodeIsTaken | auth/routes.py:421-424 | A code that was sent out is handed over exactly as its login recorded it, unless it was popped or is late; nobody else gets anything. |
| CodeRuns.RedeemedIffHonoured | auth/routes.py:411-470 | A code presented for the first time in its time yields a session for the identity its login validated iff the check finds it within its bound and presented with everything it was bound to; otherwise the refusal that RefusalCodes describes. |
| AccessRuns.AcceptedIffUnrevokedInTime | server.py:46-55 | Once handed out, an access token is accepted iff it was not revoked since and access_ttl is not over; only Redis may refuse it a second earlier; what is accepted is the session of its own issue. |
| RefreshRuns.RunKept | auth/routes.py:169-170 | In every reachable state an issued refresh token is on its way into the store, in it with its full bound, or was popped; only Redis may have lost it, in its last second. |
| RefreshRuns.RefusedIffSpentOrExpired | auth/routes.py:473-495 | A refresh token its client was given is refused if it was popped before or its TTL is over, and otherwise the request gets a session for the same identity; in the last second Redis may do either. |
| RefreshRuns.AuthorizedIsNeverRefused | auth/routes.py:460-495 | A request that was authorized is refused in no later state, and whatever is issued to it is for the credential it popped and the identity that came with it. |
| ActiveClient.NeverLoggedOut | config.py:95-100 | For every number of refreshes in any run: a client that presents each refresh token it is given unspent and strictly within refresh_ttl of its issue (with Redis at least a second earlier) is authorized every time, never refused afterwards, and issued pairs of one lineage for the identity of its login only. |
| PendingCodes.PendingCodesBounded | auth/routes.py:356-367 | Right after a login stored its code, the in-memory store holds at most as many codes as there were completed logins since code_ttl before its purge reading, each counted once, and older ones stored after that purge. |
| PendingCodes.CodesBoundedSincePurge | auth/token_store.py:119-125 | That bound holds at every moment after any purge. |
| Replies.RunAccountable | auth/routes.py:145-568 | In every reachable state each answer is backed by the log: a redirect by a login of that request with that code and redirect URI, a pair by an issue to that request and with the access TTL, a client id by a registration. |
| Replies.RunRefusedExactly | auth/routes.py:128-142 | A request is answered 429 iff one of its rate checks was over the limit. |
| Revocation.RunAccessOnce | auth/routes.py:157-171 | In every reachable state an access token is carried by at most one request, and by none once it was handed out. |
| Revocation.RevokedIsNeverAccepted | auth/routes.py:502-511 | In every run, from the revocation of a token that was handed out on, it is in no store, on nobody's way there, and accepted by no lookup; section 2 of RFC 7009. |
| Revocation.RevocationSparesRefresh | auth/routes.py:502-511 | After an access token was revoked, a lookup refuses it, and yet the refresh token of the same pair, unspent and in time, is honoured for the same identity. |
| Registration.RegisteredIsAllowed | auth/routes.py:68-94 | A registered URI passes the redirect check for its client iff it is not the empty string. |
| Registration.SchemesOfAll | auth/routes.py:542-548 | A list is accepted iff every URI on it parses and has the scheme http or https. |
| Registration.AllowedMeans | auth/routes.py:68-94 | A URI is allowed iff it has the scheme http or https and is a plain-http address of one of the four loopback hosts, registered by this client, or on the allowlist; the decision crashes iff the URI does not parse. |
| Registration.RegistrationIsHonoured | auth/routes.py:542-555 | In every later state of every run a registered URI is allowed to its client as long as the record is kept, which is for ever in memory and exactly for the client TTL with Redis; after that only the loopback rule and the allowlist count. Section 3 of RFC 7591. |
| Registration.RunRecordsKept | auth/routes.py:552-555 | In every reachable state each registration is stored as it was written, exactly as long as it is kept. |
| Registration.StoredCodesWereAllowed | auth/routes.py:335 | Every stored code's redirect URI had been allowed when its login checked it. |
| Ownership.OverwriteIsLocal | auth/routes.py:156 | Overwriting a held session object in place changes no other stored or held value. |
| Ownership.MoveKeepsSole | auth/token_store.py:73-79 | A step that moves one object, and may drop others, leaves no object in two places. |
| Ownership.MintPairOverwrites | auth/routes.py:152-166 | Issuing a pair in place is the value-level step that issues copies. |
| OAuthServer.Server.constructor | auth/token_store.py:73-79 | A new server holds nothing and is in the initial state. |
| OAuthServer.Server.CheckRateLimit | auth/routes.py:122-142 | Only the counter of this name, window and address changes, and the request is admitted iff its new count is within the limit. |
| OAuthServer.Server.StartLogin | auth/routes.py:283-285 | On objects: opens the login, or answers 429, as the minute counter says. |
| OAuthServer.Server.LoginHour | auth/routes.py:286-333 | On objects: the hour counter first, then CSRF, challenge and challenge method; each failure ends the request with its own answer. What the step comes to is `Origins.HourDecides`. |
| OAuthServer.Server.LoginRedirect | auth/routes.py:335-340 | On objects: goes on iff the redirect URI is allowed to the client that is registered at that moment. |
| OAuthServer.Server.LoginValidate | auth/routes.py:342-354 | The identity that Redmine confirmed becomes a new session object, which only this request holds; without one the form comes back. What the step comes to is `Origins.RejectedIsTurnedAway` and `Origins.ConfirmedLoginIsWelcome`. |
| OAuthServer.Server.LoginPurge | auth/routes.py:357 | Drops the overdue codes with the objects they hold; no other value changes. |
| OAuthServer.Server.LoginMint | auth/routes.py:359-367 | Binds the new code to redirect URI, client, challenge and a bound of now plus code_ttl. |
| OAuthServer.Server.LoginStore | auth/routes.py:360-378 | The session object passes from the request to the code record, and nobody else holds it. |
| OAuthServer.Server.StartToken | auth/routes.py:385-420 | On objects: rate check, then the grant type, then a missing code or refresh token, each with its own answer. What the step comes to is `Redemption.GrantIsChosen`. |
| OAuthServer.Server.TakeCode | auth/routes.py:421-424 | The code record leaves the store and its session object passes to this request alone. |
| OAuthServer.Server.Refusal | auth/routes.py:426-460 | The tests of a redemption on the stored record give the outcome whose meaning OutcomeMeansHonoured and RefusalCodes state. |
| OAuthServer.Server.CheckCode | auth/routes.py:426-461 | On objects: a refused redemption drops its session object for good, an honoured one keeps it in hand. |
| OAuthServer.Server.TakeRefresh | auth/routes.py:482-484 | The refresh token leaves the store even if expired; a live session object passes to this request alone. |
| OAuthServer.Server.MintPair | auth/routes.py:152-166 | Overwriting `expires_at` in place is the value-level step: no other stored or held session changes; the next refresh session is a new object. |
| OAuthServer.Server.StoreAccess | auth/routes.py:169 | The overwritten object passes from the request to the sessions, the new one stays in its hands. |
| OAuthServer.Server.StoreRefresh | auth/routes.py:170-171 | The new object passes to the refresh tokens and the request is answered with the pair. |
| OAuthServer.Server.Lookup | server.py:46-55 | Answers the stored session while it is unexpired, and otherwise drops it; no other entry changes. |
| OAuthServer.Server.Revoke | auth/routes.py:502-508 | Deletes this access session and nothing else; refresh tokens stay. |
| OAuthServer.Server.RevokePurge | auth/routes.py:509-511 | Drops the sessions expired at the reading taken before the lock. |
| OAuthServer.Server.StartRegister | auth/routes.py:518-525 | On objects: opens the registration, or answers 429, as its counter says. |
| OAuthServer.Server.CheckSchemes | auth/routes.py:542-548 | The loop finds the first URI that does not parse or has no web scheme, if there is one. |
| OAuthServer.Server.RegisterMint | auth/routes.py:536-555 | Only a list of web URIs gets a client id, and it is kept as submitted. What the step comes to is `Origins.SubmissionDecides`. |
| OAuthServer.Server.RegisterStore | auth/routes.py:552-568 | The record is stored under the new id with exactly the registered URIs. |
| OAuthServer.Server.ViewIsReal | auth/token_store.py:73-79 | The store that the proofs speak about is what the session objects really hold. |
| OAuthServer.Server.Step | auth/routes.py:145-568 | Every history of the heap-based server, in any interleaving, is a run of the value-level steps, and keeps every object in one place. |

## Left out

- The MCP tools and the Redmine client in server.py: request shaping only.
- URL and credential validation (auth/security.py, auth/store.py:49-71): an input of the login step.
- CSRF tokens, cookies, the login page, the authorize page, metadata endpoints, response headers: library wrappers and layout.
- Audit records and `error_description` texts: replies carry status, `error` and what was issued. The two backends may word an expired code differently.
- Environment parsing, `build_store`, `ping`, `close` and the module singleton.
- `_client_ip`: the address is an input.
- Corrupted Redis values beyond an undecryptable API key, Redis networking and persistence.
- The constant `code_challenge_method` field of a code record, which nothing reads.
- The in-process lock: each method of the in-memory store is one atomic step, as under the lock.
- Binary floating point: clock readings are real numbers, so sums of a reading and a TTL do not round.
- Cryptographic strength of tokens, SHA-256 and Fernet.
- RefusedIffSpentOrExpired: with Redis a token may be refused or honoured in the second before its bound, because the key's deadline is a truncated TTL counted from the write, which a run does not record; RedisRefusesExactlyAfterDeadline gives the exact instant on logs.
- AcceptedIffUnrevokedInTime: a revocation that names a token before anybody was given it is not counted, since the token may be stored after it.
