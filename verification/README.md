# xAuth in Dafny

A model of xAuth, the one-time-code gate, and proofs of what it promises. The web tier, the
verifier daemon, the admin daemon and the keychain firmware are modelled side by side, because
most of the promises are about several of them at once:

- **A code works once** (`Limits`, `Attempts`, `Login`, `LoginBounds`, `LoginHistory`, `LoginVerifier`): the
  code of one window of one device; adjacent windows may happen to share their eight digits. `POST /otp` is a transition system in
  which any number of handlers interleave and only a limiter command or a verifier call is atomic.
  The same system runs over a limiter that forgets and over one that never does; the two are shown
  to be indistinguishable, so replay safety is proved on the one that never forgets. What a login
  decides is then told from the history of the run alone, keystore included.
- **The stores** (`MemoryStores`, `Tokens`, `RandomTokens`, `RedisLimiter`, `RedisLogin`, `RedisTokens`,
  `RedisTouch`, `RedisCreate`). Both real stores are instances of the limiter that forgets. Called one at a time
  they hold the same live device tokens; what changes when the commands of a touch, a revoke or
  several creates overlap in Redis is stated exactly.
- **Revocation and activation** (`StatusCache`). What a cached answer, yes or no, over an asynchronous
  verifier is worth.
- **The gate as a whole** (`Gate`, `GateSafety`, `GateBounds`, `GateFinal`), over the in-memory store. What
  every 200 from `/verify` rests on there; over Redis it holds as far as a revoked token stays gone.
- **The keychain** (`Keychain`, `KeychainSafety`, `KeychainDrift`, `Serial`). The clock trust machine against
  reboots, battery pulls, clock jumps and power cuts, and the serial port that sets the time.
- **Codes** (`Otp`). Both copies of the truncation of RFC 4226, section 5.3, and of the time steps
  of RFC 6238, section 4.2, over any MAC of 32 bytes.
- **The wires** (`Lines`, `Ids`, `Numerals`, `VerifierWire`, `Labels`, `AdminList`, `AdminCommands`). Each
  request and each reply, printed by one side and parsed by the other, cut into pieces by a socket.
- **Smaller members** (`Alerts`, `InFlight`, `Keygen`, `Html`).

`dafny verify dfyconfig.toml` checks everything.

## What came out that the documentation does not say

- Forgetting a claim after 360 s is harmless exactly as long as a claim is made at most 90 s after
  the verifier matched the code (`ReplaySafeExactly`). Beyond that a concrete run opens two
  sessions with the code of one window. The source stays far below that as configured: the verifier's reply is
  awaited for VERIFIER_TIMEOUT_MS (2 s by default, auth-web/src/verifier.js:50-53) and a Redis
  command for 1 s (auth-web/src/stores/redis.js:39), so only a suspended host or a raised timeout
  gets past 90 s.
- A revoked device can keep working for the cache's TTL **plus** the time the verifier's answer
  takes, less 1 ms, and for that time alone when the TTL is 0 (`RevocationBoundExact`); the
  documentation names the TTL alone as the upper bound (auth-web/README.md:58). Until then a no is
  not final: it can be followed by a yes from a reply it overtook (`NoCanBeFollowedByYes`). It is
  final exactly when neither the cache nor a reply still in time holds a yes (`NoIsFinalExactly`).
- The same time bounds how long an activated device can still be told no, unless the calls themselves
  fail (`ActivationBoundExact`).
- A logout is not the last word on a request that has found its session already: it can still be
  answered with 200, and only such a request can (`LogoutIsFinalExactly`). The same holds for a
  device token that its device revokes (`GateFinal.RevokeIsFinalExactly`).
- The limit of 300 s on a set (firmware/xAuth_ID/src/clock.cpp:13-17, docs/runbook.md:75) is one on
  each set of a trusted clock, and not 300 s times their number over several sets: one that lands
  below the high-water mark changes the RTC and ends the trust, and with it the limit on the next
  (`NextSetLimitedExactly`). Two sets can so take a clock to any later time (`TwoSetsReachAnything`). As
  long as no set lands below the mark, n sets move it at most 300 n seconds, and that is exact
  (`DriftBound`, `DriftBoundExact`).
- A time set over serial can be refused after the RTC has already been changed, exactly when it is
  up to 300 s below the high-water mark (`RefusedButApplied`).
- If power fails inside a set, after the RTC was written and before the high-water mark was, the
  time set is a floor for later codes exactly when the mark had already reached it
  (`CutFloorExact`); a set that is not cut always is one (`SetTimeIsAFloor`).
- One firmware build from the factory shows no code older than itself, as long as power is never
  cut between two particular flash writes (`CodesNotBeforeBuild`). A keychain that was set under an
  older build and then reflashed can, without any cut, exactly as long as its mark has not passed
  the new build time (`UncutFloorExact`). If such cuts may happen, the floor holds exactly once the
  mark has passed it, set before or not (`BuildFloorExact`).
- The text "NO CLOCK", which docs/runbook.md:73 tells the owner to look for, is never drawn on a
  device that boots without its clock: the panel is only redrawn on a change, and "no clock at
  time 0" is what it starts from (`PanelIsFaithful`, `NoClockIsNeverDrawn`).
- Over Redis a revoke is not always final. `touch` reads two keys and then writes, in three awaited
  commands that `/verify` does not wait for (auth-web/src/stores/redis.js:133-142,
  auth-web/src/routes/verify.js:27), although the store's own comment allows no read before a write
  (auth-web/src/stores/redis.js:4-5). If a whole revoke falls between the reads and the write, it
  answers with success and the token is found again until it expires, in no list and with no id to
  revoke it by (`TouchOutlivesRevoke`). A revoke is final exactly when no such write is outstanding
  as it deletes (`RedisTouch.RevokeIsFinalExactly`); over the in-memory store a revoked token never comes
  back (`OnlyIssued`).
- Over Redis k creates of one device that have all counted before any of them stores can take it k - 1
  tokens past its limit, and never further (`CreateBoundExact`).
- The two stores answer a revoke differently for a token that has expired but was not swept yet,
  and in no other case (`StoresAnswerAlike`).

## How to read the model

- One clock in milliseconds is shared by web tier, stores and verifier, and does not go back.
- `commandDelay` bounds how long a limiter command is in flight, `claimDelay` the time from the
  verifier's match to the claim. An action that is impossible in a state leaves it unchanged, so
  every sequence of actions is a run.
- SHA-256 is a constructor (`Digest`), hence injective. Tokens, token ids and device ids that the
  source draws at random are parameters; the gate model and the token runs take them to be fresh.
- HMAC is any function to 32 bytes. Masks and shifts are written as arithmetic modulo powers of two.
- A Redis key set with `EX n` can be read for strictly less than n seconds. Each command or script is
  one step.
- `Forget` in the login model may drop any records that are old enough, at any time: the
  memory sweeper is one instance (`SweepIsForgetting`), Redis expiry another (`ExpiryIsForgetting`).
- The keychain's RTC may show anything at any reading; a boot samples it once. A power cut inside a
  set is an event of its own, with whatever the RTC reads at the next boot.
- Strings are ASCII: normalisation and white space are modelled for ASCII characters only.

## Model

| member | source | states |
|---|---|---|
| Login.CodeWorksOnce | auth-web/src/routes/otp.js:22-63 | in every interleaving with claims at most 90 s late, the counters a device logs in with strictly increase and no two sessions rest on the same device and counter |
| Login.ForgettingIsInvisible | auth-web/src/stores/memory.js:24-46 | every run over a limiter that forgets equals, handler by handler and answer by answer, the run over one that never forgets |
| Login.StepAgrees | auth-web/src/routes/otp.js:22-63 | the step-by-step simulation behind it, for all actions of all handlers |
| Login.PerfectIncreases | auth-web/src/stores/memory.js:78-87 | over the limiter that never forgets, successful claims of a device strictly increase in every run |
| Login.RunSessionsDistinct | auth-web/src/routes/otp.js:51-57 | in every run over either limiter each session has a claim of its own |
| LoginBounds.ReplaySafeExactly | auth-web/src/stores/memory.js:81-87 | the code of one window of one device opens at most one session in every run if and only if the verify-to-claim delay is at most 90 000 ms |
| LoginBounds.LateClaimReplays | auth-web/src/routes/otp.js:41-57 | with any longer delay, a concrete run through real budgets opens two sessions for the same device and window |
| LoginBounds.LoginDecides | auth-web/src/routes/otp.js:22-63 | from any state, undisturbed, a login opens a session exactly when both budgets are left, ID and code are well formed once normalised, the verifier matched and the claim is new; and its claim is the counter the verifier answered, for the normalised ID |
| LoginBounds.GuessBound | auth-web/src/routes/otp.js:32-41 | over any interval, concurrent handlers included, allowDevice lets through at most a device's budget times the windows the interval touches, reaching back by the time a command may be under way; counted when the budget was asked for, without that allowance |
| LoginBounds.PostBound | auth-web/src/stores/memory.js:72-74 | likewise an IP gets at most ipAttemptsPerMinute POSTs through for each minute an interval touches, reaching back by the command delay |
| LoginBounds.AttemptsExactly | auth-web/src/stores/memory.js:42-77 | in every run from an empty limiter, whatever it forgets, a POST is let through if and only if fewer than the limit were sent before it by its IP in its minute, refused ones included; and a verifier call likewise for its device and window |
| LoginHistory.HistoryDecides | auth-web/src/routes/otp.js:22-63 | after every run a whole login opens a session exactly when the history says so: too few attempts sent so far by the IP and for the device, well-formed input, a match, and a counter beyond all the device has logged in with |
| LoginHistory.ClaimExactly | auth-web/src/stores/memory.js:78-87 | in every run with claims at most 90 s late, a claim is granted if and only if its counter is larger than every counter its device has logged in with, remembered or not |
| LoginBounds.RunAnsweredInTime | auth-web/src/routes/otp.js:22-35 | in every run each attempt of an IP or a device was counted within the command delay after its slot was read |
| LoginBounds.RunWithinBudget | auth-web/src/stores/memory.js:42-77 | in every run over any limiter no minute of an IP and no window of a device lets more attempts through than its limit, although counters are forgotten |
| Limits.SuffixOfKey | auth-web/src/stores/memory.js:24 | the slot is read back from every attempt key, whatever colons the name contains |
| Limits.KeyInjective | auth-web/src/stores/memory.js:73-76 | two attempt keys are equal only for the same name and slot |
| Limits.BumpAgrees | auth-web/src/stores/memory.js:42-46 | a count asked for in time is the count of a table that never forgot |
| Limits.ClaimAgrees | auth-web/src/stores/memory.js:81-87 | a counter from the verifier's window, claimed at most one step later, is answered as if no claim were ever forgotten |
| Limits.AgreeForget | auth-web/src/stores/memory.js:27-38 | dropping records that are old enough keeps that agreement |
| LoginVerifier.HeardInWindow | auth-web/src/routes/otp.js:41-51 | a counter that verify() returns, daemon and wire included, is within one step of the moment the verifier looked at its clock |
| LoginVerifier.AnswersAreTaken | auth-web/src/routes/otp.js:41-51 | the login protocol acts on every answer of the verifier: a counter moves the handler on to its claim, a no ends it |
| LoginVerifier.LoginExactly | auth-web/src/routes/otp.js:22-63 | the same with the daemon and its keystore behind it: a session is opened if and only if the budgets are left and the code is good for a device with status 1 and a whole key, with a counter beyond all before |
| LoginVerifier.EveryClaimWasGood | verifier/main.cpp:99-139 | over a keystore that changes at any moment, every successful claim of every run rests on an answer given while the keystore had the device with status 1 and its code was good, at most the claim delay before |
| LoginVerifier.RevokedGetsNoMatch | verifier/main.cpp:112-113 | a device revoked and kept revoked gets no match after the revocation, and so no claim later than the claim delay after it |
| LoginVerifier.RevokedClaimExactly | auth-web/src/routes/otp.js:41-51 | that bound is exact: a bound on late claims holds in all runs if and only if it is at least the claim delay |
| MemoryStores.SweepIsForgetting | auth-web/src/stores/memory.js:27-38 | what the sweep drops is old enough even for commands without any delay |
| MemoryStores.MemoryStores.Sweep | auth-web/src/stores/memory.js:27-38 | the loops forget exactly the due records: every live session and token is kept, and no expired one, no claim past its time and no attempt of an earlier minute or of a window before the last is left |
| MemoryStores.MemoryStores.SweepTokens | auth-web/src/stores/memory.js:35-37 | both token indexes lose exactly the expired records |
| MemoryStores.MemoryStores.AllowIp | auth-web/src/stores/memory.js:72-74 | lets through exactly while the count of the IP and minute is below the limit, and counts the attempt either way; one step of the limiter that forgets |
| MemoryStores.MemoryStores.AllowDevice | auth-web/src/stores/memory.js:75-77 | the same for a device and window |
| MemoryStores.MemoryStores.Claim | auth-web/src/stores/memory.js:81-87 | one step of the limiter that forgets |
| MemoryStores.MemoryStores.CreateSession | auth-web/src/stores/memory.js:49-55 | the session expires at a fixed time and no other session changes |
| MemoryStores.MemoryStores.GetSession | auth-web/src/stores/memory.js:56-63 | a session is found exactly while it is live; only a lapsed one is dropped |
| MemoryStores.MemoryStores.DestroySession | auth-web/src/stores/memory.js:64-66 | exactly the named session is gone |
| MemoryStores.MemoryStores.CreateToken | auth-web/src/stores/memory.js:96-105 | refuses at the limit, otherwise adds the token to both indexes |
| MemoryStores.MemoryStores.LookupToken | auth-web/src/stores/memory.js:106-110 | finds a token exactly while it is live |
| MemoryStores.MemoryStores.TouchToken | auth-web/src/stores/memory.js:127-131 | the last use recorded is at most a minute old afterwards, one recorded within the minute stays, and nothing else changes |
| MemoryStores.MemoryStores.RevokeToken | auth-web/src/stores/memory.js:118-125 | removes exactly the owner's token from both indexes, and says whether it did |
| Tokens.CreatedIndexed | auth-web/src/stores/memory.js:96-105 | creating with fresh values keeps the two indexes mutually inverse |
| Tokens.CreatedWithinLimit | auth-web/src/stores/memory.js:96-105 | creating never takes a device past its number of live tokens, now or later |
| Tokens.RemovalsKeep | auth-web/src/stores/memory.js:118-131 | revoking and touching keep the indexes inverse and every device within its limit |
| Tokens.SweptIndexed | auth-web/src/stores/memory.js:35-37 | the sweep keeps the indexes inverse |
| RandomTokens.IssuedIsShaped | auth-web/src/tokens.js:11-23 | every generated device token passes the shape check of lookup, and every session token that of get |
| RandomTokens.IssuedIdIsShaped | auth-web/src/tokens.js:17-19 | a generated token id has 11 base64url characters |
| RandomTokens.DecodeEncode | auth-web/src/tokens.js:13-19 | the text decodes to the random bytes |
| RandomTokens.TokensAreDistinct | auth-web/src/tokens.js:13-15 | different random bytes give different tokens |
| RedisLimiter.IncrIsBump | auth-web/src/stores/redis.js:17-20 | the script is one bump of the limiter that forgets, and its key outlives its slot by a whole slot |
| RedisLimiter.ClaimIsClaim | auth-web/src/stores/redis.js:23-28 | the script accepts and records exactly what the expiring claim table does |
| RedisLimiter.ExpiryIsForgetting | auth-web/src/stores/redis.js:68-81 | as time passes Redis drops only what may be forgotten, for command delays up to a minute |
| RedisLimiter.RedisLimiter.AllowIp | auth-web/src/stores/redis.js:70-73 | for a command sent earlier within its slot: lets through exactly while the readable count is below the limit, and counts the attempt either way; one step of the limiter that forgets |
| RedisLimiter.RedisLimiter.AllowDevice | auth-web/src/stores/redis.js:74-77 | the same for a device and window |
| RedisLimiter.RedisLimiter.Claim | auth-web/src/stores/redis.js:78-80 | one step of the limiter that forgets |
| RedisLogin.RedisIsPerfect | auth-web/src/stores/redis.js:68-81 | every login run over Redis keys with their times to live answers, handler by handler, as the run over a limiter that never forgets (command delays up to a minute) |
| RedisLogin.CodeWorksOnce | auth-web/src/stores/redis.js:22-28 | over Redis, too, counters of a device strictly increase and no two sessions rest on the same device and counter |
| RedisLogin.RunIsForgetful | auth-web/src/stores/redis.js:68-81 | whatever the delay of claims, a run over Redis is a run of the protocol with its acts of forgetting written out |
| RedisLogin.GuessBound | auth-web/src/stores/redis.js:74-77 | over Redis, too, allowDevice lets through at most the budget for each window an interval touches, reaching back by the command delay |
| RedisLogin.PostBound | auth-web/src/stores/redis.js:70-73 | and allowIp at most its limit for each minute, likewise |
| RedisLogin.AttemptsExactly | auth-web/src/stores/redis.js:70-77 | in every run over Redis keys an attempt is let through if and only if fewer than the limit were sent before it for its slot, refused ones included |
| RedisLogin.HistoryDecides | auth-web/src/routes/otp.js:22-63 | after every run over Redis keys a whole login is decided by the history alone |
| RedisLogin.CommandIsLogin | auth-web/src/stores/redis.js:70-80 | each script call of a handler is one step of the protocol over the limiter that forgets |
| RedisTokens.StoresAnswerAlike | auth-web/src/stores/redis.js:103-143 | in every sequential run both stores answer every call alike except a revoke of an expired, unswept token, where they always differ; indexes and limits hold throughout |
| RedisTokens.RedisTokenStore.RecordsFor | auth-web/src/stores/redis.js:87-101 | the loop returns exactly the readable records of the device, each once, and removes exactly the stale ids |
| RedisTokens.ResolvedAreOwned | auth-web/src/stores/redis.js:87-105 | the ids that resolve are those of the device's live tokens, so both stores count the same number against the limit |
| RedisTokens.CreateSimulates | auth-web/src/stores/memory.js:96-105 | run alone, create succeeds in both stores or in neither and leaves them with the same live tokens |
| RedisTokens.RevokeSimulates | auth-web/src/stores/redis.js:125-132 | revoke answers alike if and only if the token is not expired and unswept |
| RedisTokens.UseSimulates | auth-web/src/stores/memory.js:106-131 | run alone, lookup and touch answer alike in both stores and leave the same live tokens |
| RedisTokens.OnlyOwnerRevokes | auth-web/src/stores/memory.js:117-125 | a live token disappears only through the revoke of its own device and id |
| RedisTouch.GoneExactly | auth-web/src/stores/redis.js:117-142 | with every command of touch, revoke and create on its own: a token that cannot be found stays so in every run if and only if no call under way is about to store an unexpired record of it |
| RedisTouch.RevokeIsFinalExactly | auth-web/src/stores/redis.js:125-142 | a revoke that gets to delete removes the token, for good if and only if no touch or create of it stands between its reads and its write |
| RedisTouch.TouchOutlivesRevoke | auth-web/src/stores/redis.js:125-142 | from any state with a live token due for a touch, the overlapping run after which its revoke was answered with success and it is found again, unlisted, without an id and without a time to live |
| RedisTouch.RunStaysAbsent | auth-web/src/stores/redis.js:117-143 | the invariant behind it: neither the key nor an outstanding write holds an unexpired record |
| RedisCreate.CreateBoundExact | auth-web/src/stores/redis.js:104-116 | with at most k creates of a device between count and store, a bound on its tokens holds in all runs if and only if it is at least the limit plus k - 1 |
| RedisCreate.RunWithin | auth-web/src/stores/redis.js:104-116 | in every run a device's tokens and creates under way together stay within the limit plus k - 1 |
| StatusCache.YesIsFresh | auth-web/src/verifier.js:105-117 | under any interleaving, a yes means the verifier saw the device active at most TTL plus delay less 1 ms before |
| StatusCache.RevocationTakesEffect | auth-web/src/verifier.js:97-117 | a device revoked and kept revoked gets no yes later than that after the revocation |
| StatusCache.RevocationBoundExact | auth-web/src/verifier.js:97-117 | a bound on late answers holds in all runs if and only if it is at least TTL plus delay less 1 ms (delay alone when TTL is 0) |
| StatusCache.NoIsFresh | auth-web/src/verifier.js:105-117 | and a no about a valid ID is a failed call, or means that it was seen inactive at most that long before |
| StatusCache.ActivationTakesEffect | auth-web/src/verifier.js:105-117 | a device activated and left active is told no later than that only by a call that failed |
| StatusCache.ActivationBoundExact | auth-web/src/verifier.js:105-117 | the bound on outdated answers after an activation is exact as well |
| StatusCache.NoIsFinalExactly | auth-web/src/verifier.js:105-117 | for a revoked device, no call still open or yet to come is told yes in any run if and only if the cache holds no unexpired yes and no reply that saw the device active can still arrive in time |
| StatusCache.NoCanBeFollowedByYes | auth-web/src/verifier.js:105-117 | with a cache, a run in which one caller is told no and the next is told yes, from a reply overtaken by another |
| StatusCache.StatusChecker.Finish | auth-web/src/verifier.js:109-116 | an error never answers yes and leaves nothing cached; anything else is cached for the TTL |
| StatusCache.StatusChecker.Begin | auth-web/src/verifier.js:106-107 | a cached answer is given only before its time is up |
| GateSafety.EveryGrantIsBacked | auth-web/src/routes/verify.js:9-28 | over the in-memory store: every 200 in every run traces back to a successful claim by the same device, through a session, or through a token minted by a request guarded while its session was neither expired nor destroyed; the credential neither expired, destroyed nor revoked when looked up, and the device seen active within the status bound |
| GateSafety.VerifyDecides | auth-web/src/routes/verify.js:9-33 | undisturbed, /verify answers 200 exactly for a live session or else, in a second lookup, a live token whose device counts as active, and grants it to that device |
| GateSafety.FormDecides | auth-web/src/routes/tokens.js:55-67 | undisturbed, a form gets past its guard exactly with a live session of a device that counts as active, and earns no 200 of /verify |
| GateSafety.ArrivedInv | auth-web/src/session.js:6-12 | a request goes on only with a session or token that is backed by a claim at the moment it is found |
| GateSafety.LookedInv | auth-web/src/routes/verify.js:18-24 | the token lookup, a step of its own, goes on only with a token backed at that later moment |
| GateSafety.StepInv | auth-web/src/routes/tokens.js:55-98 | every step of every handler keeps the provenance of sessions, tokens, pending requests and past 200s |
| GateSafety.RevokedDeviceIsShutOut | auth-web/src/routes/verify.js:24-28 | a device revoked and kept revoked gets no 200 later than the status bound after the revocation |
| GateBounds.ShutOutExactly | auth-web/src/routes/verify.js:15-28 | wherever anyone can sign in at all, a bound on how late a revoked device gets a 200 holds in all runs of the gate if and only if it is at least the status bound |
| GateBounds.LastGrant | auth-web/src/routes/verify.js:15-28 | a whole run, from sign-in on, in which a device revoked meanwhile gets its last 200 exactly that late |
| GateFinal.LogoutIsFinalExactly | auth-web/src/routes/logout.js:14-23 | after a logout the cookie earns another 200, in any continuation, if and only if a GET /verify had found its session before and can still be answered yes |
| GateFinal.RevokeIsFinalExactly | auth-web/src/routes/tokens.js:90-98 | likewise for a device token whose own device has revoked it |
| GateFinal.GrantsEndExactly | auth-web/src/routes/verify.js:9-28 | the same in every reachable state without the credential: no 200 is to come for it exactly when no request holds it usefully |
| GateFinal.CredentialLasts | auth-web/src/stores/memory.js:47-66 | in every run a session or token keeps its device and its expiry until it expires, is logged out with its own cookie, or is revoked by a guarded request of its own device; nothing else removes it |
| GateFinal.OnlyIssued | auth-web/src/routes/tokens.js:69-88 | and it comes into being only through a granted login of its device or a guarded request to mint of its device |
| GateFinal.NewSessionServes | auth-web/src/routes/otp.js:57-61 | the session of a granted login is what /verify goes by, for the device of its claim, in every continuation until it expires or is logged out |
| GateFinal.NewTokenServes | auth-web/src/routes/tokens.js:69-88 | a token minted with room for it is what /verify goes by without a session, in every continuation until it expires or its device revokes it |
| GateSafety.SessionsHaveTheirOwnCode | auth-web/src/routes/otp.js:48-57 | in the whole gate no two sessions ever issued rest on the same device and counter |
| GateSafety.MintedInv | auth-web/src/routes/tokens.js:69-88 | a new token is backed by the session that stood, undestroyed, when its request was guarded |
| KeychainSafety.CodesNeverFallBack | firmware/xAuth_ID/src/clock.cpp:80-127 | over any sets, reboots, battery pulls, clock jumps and power cuts, a later code is never more than 21600 s older than an earlier one |
| KeychainSafety.FallBackExact | firmware/xAuth_ID/src/clock.cpp:19-21 | a bound on how far codes fall back holds in all runs if and only if it is at least 21600 s |
| KeychainSafety.RunMark | firmware/xAuth_ID/src/clock.cpp:80-101 | in every reachable state RAM and flash hold the same mark, it never decreases, and every code lies between the mark before it and 6 h above the mark after |
| KeychainSafety.SetTimeIsAFloor | firmware/xAuth_ID/src/clock.cpp:103-127 | a set that reaches the RTC and is not cut, wherever it stands among the sets of a pass, is a floor: no earlier time is ever shown as a code again |
| KeychainSafety.CutFloorExact | firmware/xAuth_ID/src/clock.cpp:121-124 | if power fails after the RTC write and before the mark, the time set is a floor in every later run if and only if the mark had reached it |
| KeychainSafety.RefusedButApplied | firmware/xAuth_ID/src/clock.cpp:112-126 | on a clock that behaves, a set that gets past the checks changes the RTC, and is reported as refused exactly when it is below the mark, by at most 300 s |
| KeychainDrift.SetExactly | firmware/xAuth_ID/src/clock.cpp:103-127 | for every clock, set and RTC behaviour: what is refused, written out, leaves everything else alone, and what is not has this RTC, flag, mark and state |
| KeychainDrift.FirstCodeExactly | firmware/xAuth_ID/src/clock.cpp:33-54 | the first pass after a boot shows a code if and only if the RTC answers, has not stopped, was set before, is not before the build, and neither it nor the next reading is below the mark |
| KeychainDrift.DriftBound | firmware/xAuth_ID/src/clock.cpp:13-17 | on an RTC that behaves, over any waits and passes, n sets of which none lands below the mark move a trusted clock at most 300 n seconds from true time, and it stays trusted |
| KeychainDrift.DriftBoundExact | firmware/xAuth_ID/src/clock.cpp:13-17 | such a bound holds for all these lives if and only if it is at least 300 n |
| KeychainDrift.NextSetLimitedExactly | firmware/xAuth_ID/src/clock.cpp:107-110 | after a set of a trusted clock the next one is limited to 300 s as well, if and only if it did not get past the checks with a time below the mark |
| KeychainDrift.TwoSetsReachAnything | firmware/xAuth_ID/src/clock.cpp:103-127 | without that condition: from every trusted clock a life with two sets after which it is trusted again at any given later time |
| KeychainSafety.MarkNeverWraps | firmware/xAuth_ID/src/clock.cpp:85-87 | with times up to 2100 the mark stays there, so adding the interval never wraps in 32 bits |
| KeychainSafety.CodesNotBeforeBuild | firmware/xAuth_ID/src/clock.cpp:33-42 | one firmware build from the factory, without a cut between the flag and the mark: no code is older than the build, although reads do not check it |
| KeychainSafety.UncutFloorExact | firmware/xAuth_ID/src/clock.cpp:33-42 | without such cuts no code is older than the build, in any run from any state, if and only if the device was not set before or its mark has reached the build time |
| KeychainSafety.BuildFloorExact | firmware/xAuth_ID/src/clock.cpp:122-124 | with such cuts that holds in all runs if and only if the mark has reached the build time |
| KeychainSafety.PanelIsFaithful | firmware/xAuth_ID/src/main.cpp:41-59 | after a pass the panel shows what it should, if and only if the pass is not the first one of a device without a clock |
| KeychainSafety.NoClockIsNeverDrawn | firmware/xAuth_ID/src/main.cpp:41-59 | a device that boots without its clock draws neither a status nor a code, until it reboots |
| Keychain.Firmware.ClockNow | firmware/xAuth_ID/src/clock.cpp:89-101 | the reading is the RTC's; if it stays trusted it lies within 6 h above the mark |
| Keychain.Firmware.ApplyTime | firmware/xAuth_ID/src/clock.cpp:103-127 | refused without a clock, before the build, over 300 s below the mark or, while trusted, over 300 s from the RTC, and then only the RTC's own movement shows; otherwise the RTC, the flag and the mark are written and success means trusted afterwards |
| Keychain.Firmware.ClockBegin | firmware/xAuth_ID/src/clock.cpp:44-54 | after boot the RAM mark is the flash mark and the state is evaluated afresh |
| Keychain.Firmware.Loop | firmware/xAuth_ID/src/main.cpp:37-61 | clock and panel after one pass with any sets received since the last, the RTC free to move before each reading |
| Serial.ChunkingIsInvisible | firmware/xAuth_ID/src/clock.cpp:158-176 | whatever the chunking, the lines handled are those of the stream, carriage returns dropped and over-long lines dropped whole |
| Serial.Port.Poll | firmware/xAuth_ID/src/clock.cpp:158-176 | the 32-byte buffer loop handles exactly the lines completed by these bytes and keeps the rest |
| Serial.HandleCommand | firmware/xAuth_ID/src/clock.cpp:138-156 | what a line means in decimal, despite a strtoul that saturates at 32 bits |
| Serial.SetExactly | firmware/xAuth_ID/src/clock.cpp:141-150 | a line without NUL hands an epoch to apply_time if and only if it is a T, a blank and a numeral of that value, no larger than MAX_EPOCH |
| Serial.Session | firmware/xAuth_ID/src/clock.cpp:138-176 | for every NUL-free stream and every chunking, apply_time is handed, in order, the numbers on exactly the set lines of the stream |
| Serial.Strtoul | firmware/xAuth_ID/src/clock.cpp:142-148 | the digits' value, or the largest 32-bit number when it does not fit |
| Otp.DynamicTruncate | core/otp.cpp:25-37 | in bounds for every digest, and equal to the truncation of RFC 4226, section 5.3 |
| Otp.CounterRoundTrip | core/otp.cpp:44-49 | the big-endian encoding of a counter decodes to the counter |
| Otp.FillCounter | core/otp.cpp:44-49 | the in-place loop writes exactly that encoding |
| Otp.FirmwareCode | firmware/xAuth_ID/src/totp.cpp:36-86 | the keychain's text equals the server's code for the same counter, digit for digit |
| Otp.CodeReadsBack | core/otp.cpp:59-64 | a code is always eight digits and reads back as the truncated value modulo 100 000 000 |
| Otp.VerifyCode | verifier/main.cpp:99-139 | yes if and only if the keystore is readable and has the valid ID with status 1 and a key of 128 characters, and the code is that of the window before now, of now or of the one after; with the counter of the first that matches |
| Otp.VerdictIsLeast | verifier/main.cpp:120-135 | the counter answered is the least matching one within a step of now, and no means that none matches |
| Otp.ShownCodeAccepted | firmware/xAuth_ID/src/totp.cpp:71-86 | what the keychain shows is accepted whenever the clocks differ by at most 90 s |
| Otp.ToleranceExact | verifier/main.cpp:122-135 | every key's and MAC's code for a counter is accepted if and only if it is within one step of now |
| Otp.SecondsLeft | firmware/xAuth_ID/src/totp.cpp:79-81 | the code stays the same for exactly that many seconds and no more |
| Lines.ReadLine | verifier/main.cpp:170-190 | for every chunking: the bytes before the first newline if it is within the buffer, else a refusal |
| Lines.FirstLineExactly | verifier/main.cpp:171-190 | the line read is the one text without a newline, within the limit, that starts the stream with a newline behind it |
| Lines.WriteAll | verifier/main.cpp:192-200 | the loop sends what partial, interrupted and failed writes let through, in order |
| Lines.AllIsSent | verifier/main.cpp:192-200 | short of a failed write the whole text is sent, whatever the interruptions and partial writes |
| Lines.Ask | auth-web/src/verifier.js:38-69 | a newline-terminated reply of up to the limit is returned whole for every chunking, and anything returned starts the stream |
| VerifierWire.Verify | auth-web/src/verifier.js:75-83 | over any chunking in both directions the client learns the daemon's verdict for exactly the ID and code it passed, and over a connection that breaks nothing else but a no; a yes means status 1, a whole key and a code of the three windows |
| VerifierWire.AnswerExactly | verifier/main.cpp:154-159 | for times the client can be told of, it is told yes exactly when the code is good, with its counter |
| VerifierWire.AskStatus | auth-web/src/verifier.js:87-93 | active only with status 1 in the keystore, inactive only without, and while nothing breaks exactly so; over a connection that breaks nothing else but an error |
| VerifierWire.VerifyAnything | auth-web/src/verifier.js:79-82 | whatever bytes come back, a yes is a complete well-formed reply at the start of the stream |
| VerifierWire.VerifyArrives | verifier/main.cpp:141-153 | every ID and code the client accepts reaches the handler unchanged |
| VerifierWire.ReplyReadsBack | verifier/main.cpp:154-159 | the printed counter parses back to itself below 10^15 and is refused from there on |
| VerifierWire.SplitParts | verifier/main.cpp:144-153 | the loop yields at most four pieces between single blanks |
| VerifierWire.Serve | verifier/main.cpp:202-229 | when a user is named, another user's connection gets no word and is not read; any other gets its first line answered, or ERR, as far as the writes succeed |
| Ids.SameIds | core/keystore.cpp:72-78 | the daemons and the web tier accept the same device IDs |
| Ids.NormalizeIdReads | auth-web/src/verifier.js:19-26 | the five passes are one reading per character: separators dropped, case and look-alikes resolved |
| Ids.ValidIdUnchanged | auth-web/src/verifier.js:15-26 | a generated ID is its own normal form |
| Ids.IdLetterByLetter | auth-web/src/verifier.js:19-26 | each character of an ID is read on its own, wherever it stands: blanks and hyphens as nothing, small letters as capitals, O as 0, I and L as 1 |
| Ids.CodeLetterByLetter | auth-web/src/verifier.js:28-30 | a code is what was typed without its blanks and hyphens, wherever they stand |
| Numerals.ParsePrint | verifier/main.cpp:158 | a printed number is digits only and parses back |
| Numerals.PaddedRoundTrip | core/otp.cpp:59-64 | zero-padding gives exactly the width and is undone by reading |
| AdminList.ListRoundTrip | auth-web/src/admin.js:53-64 | for every list of listable devices, parsing the printed and patched reply returns exactly that list, whatever the labels say |
| AdminList.List | auth-web/src/admin.js:53-64 | over any chunking the list arrives if and only if it is within 64 KiB |
| AdminList.PatchedListing | admin/main.cpp:115-129 | the in-place patch changes the dates of the records and nothing else |
| AdminList.NothingToPatch | admin/main.cpp:115-129 | a reply without a record, as every other reply is, passes the patch unchanged |
| AdminList.PatchShift | admin/main.cpp:115-129 | the patch never looks or writes before its position |
| AdminList.SingleTokenDates | admin/main.cpp:115-129 | the loop that rewrites the string in place computes that patch |
| AdminList.HandleList | admin/main.cpp:83-92 | the loop prints every device in order, then END |
| AdminList.ParseList | auth-web/src/admin.js:54-63 | the loop refuses the whole reply on the first line that does not parse |
| AdminList.AskAll | auth-web/src/admin.js:37-42 | the whole reply at the end of the stream, unless it is over the limit |
| AdminCommands.RunIsSound | admin/main.cpp:94-111 | whatever lines arrive, no device disappears, no key changes, and every row can be listed |
| AdminCommands.RequestIsCommand | auth-web/src/admin.js:66-76 | the daemon's reading of each request is the command the client meant |
| AdminCommands.RequestText | auth-web/src/admin.js:66-77 | the request lines, word by word |
| AdminCommands.RequestFits | admin/main.cpp:131-147 | every request the client sends fits the buffer and is one line |
| AdminCommands.AddEndToEnd | auth-web/src/admin.js:66-71 | the ID and key in the reply are exactly the one row gained; a failure gained none and met only taken IDs |
| AdminCommands.ChangeEndToEnd | auth-web/src/admin.js:72-77 | ok if and only if the device exists, and then only its own field has changed |
| AdminCommands.AddDevice | auth-web/src/admin.js:66-71 | through the socket in any pieces and the date patch: what add() returns is the one row gained, and it returns nothing exactly for an unclean label or when every drawn ID is taken |
| AdminCommands.ChangeDevice | auth-web/src/admin.js:72-77 | through the socket and the date patch: ok exactly for a known device, of which only the one field has changed |
| AdminCommands.Exchange | admin/main.cpp:256-262 | one request and its reply over a socket: the command is carried out once and its answer arrives unchanged |
| Labels.NormalizedLabelIsStable | auth-web/src/admin.js:13-17 | a normalised label passes the daemon's check and is its own normal form |
| Labels.NormalizedLabelIsWords | auth-web/src/admin.js:13-17 | a label is normalised to its words with single blanks between, or refused, exactly by length and characters |
| Labels.SameLabels | core/keygen.cpp:37-43 | the daemon and the web tier accept the same labels |
| AdminCommands.AdminDaemon.HandleAdd | admin/main.cpp:62-81 | within 16 attempts the first free ID is taken and no existing row is overwritten |
| AdminCommands.AdminDaemon.HandleRequest | admin/main.cpp:94-111 | the new rows and the answer for every line but LIST |
| Alerts.AlertsFollowTheRule | auth-web/src/alerts.js:20-58 | in every run on a monotone clock exactly the alerts go out that a rule over the whole history names, wherever sweeps fall |
| Alerts.AlertsExactly | auth-web/src/alerts.js:28-58 | in every run an event sends an alert if and only if it asks for one (raised, or a failure that brings its device to the limit within the hour), none like it was sent that hour and fewer than twenty were |
| Alerts.AlertRate | auth-web/src/alerts.js:28-35 | in every run, of the alerts that go out, at most twenty fall into one hour and no two of an hour have the same kind and device |
| Alerts.SweepIsInvisible | auth-web/src/alerts.js:20-24 | a sweep leaves the maps saying what the history says |
| Alerts.Alerter.Alert | auth-web/src/alerts.js:28-35 | the new maps and counters, and whether the alert went out |
| Alerts.Alerter.Failure | auth-web/src/alerts.js:51-57 | the new tally, and whether it raised an alert |
| Alerts.Alerter.Sweep | auth-web/src/alerts.js:20-24 | the two loops delete exactly the entries of earlier hours |
| InFlight.AtMostThirtyTwo | verifier/main.cpp:335-352 | in every interleaving at most 32 connections are served, the counter is exact, and a connection is refused if and only if 32 threads have not counted down |
| InFlight.BackToZero | verifier/main.cpp:217-246 | the counter is zero if and only if nothing is in flight |
| Keygen.IdsAreUnbiased | core/keygen.cpp:8-19 | every Crockford string of length n comes from exactly 8^n byte buffers |
| Keygen.SpelledIsValid | core/keystore.cpp:72-78 | an output is a valid device ID if and only if its length is 4 to 8 |
| Keygen.GenerateDeviceId | core/keygen.cpp:13-18 | the loop spells the buffer |
| Keygen.KeyKeepsEveryBit | core/keygen.cpp:21-35 | the hex key decodes to the random bytes |
| Keygen.GenerateKey | core/keygen.cpp:21-35 | the loop prints all 64 bytes as 128 characters |
| Html.EscapeIsOnePass | auth-web/src/render.js:7-14 | the five replacements equal one simultaneous substitution |
| Html.EscapedIsSafe | auth-web/src/render.js:7-14 | no angle bracket or quote is left, and unescaping recovers the text |

## Left out

- LoginVerifier.LoginExactly: times before the first step, and counters of more than 15 digits, which the client refuses, are excluded; so are claims more than 90 s late, where `LateClaimReplays` shows it false.
- VerifierWire.AnswerExactly: the same times are excluded; VerifyCode covers them.
- KeychainDrift.DriftBound: only for lives in which no set lands below the mark, without reboots and battery pulls; without the first it is false, as `TwoSetsReachAnything` states.
- GateFinal.LogoutIsFinalExactly: for continuations in which the same 32 random bytes are not drawn again, and for a cookie that is not empty, as the source destroys no session for an empty one and finds none either.
- GateFinal.NewTokenServes: for tokens with fresh random bytes, which have the shape asked for by `IssuedIsShaped`.
- RedisTokens.StoresAnswerAlike: calls run one at a time; overlapping ones are the subject of `RedisTouch` and `RedisCreate`. Lists are compared as sets, so their order by creation time is not modelled.
- GateSafety.EveryGrantIsBacked: over the in-memory store; over Redis a revoked token may be written back, as `RedisTouch` states.
- RedisTouch.GoneExactly: recordsFor is one step there; its removals from an index never bring a token back.
- RedisLimiter.ExpiryIsForgetting: command delays of more than one minute are not covered; the client's command timeout is one second.
- VerifierWire.Serve: the bounded drain after the reply is not modelled; a timeout ends what arrives, or what is written, like any other error.
- Otp.VerdictIsLeast: times before the first step, where the counter before now wraps in 64 bits, are excluded; VerifyCode covers them with the wrap written out.
- AdminList.ListRoundTrip: covers rows whose creation time is empty or a full UTC timestamp, the only ones the schema produces.
- AdminCommands.RunIsSound: keystore errors (an unreadable or locked database) are not modelled; writes either happen or find no row.
- Serial.HandleCommand: ends where apply_time is called, which `Keychain` models; the reports printed are not modelled.
- Origin checks, the redirect policy, cookies and label normalisation for tokens: they decide whether a handler runs, not what it keeps.
- The last-admin check of the admin pages: it lists and then revokes across an await, so only a weak sequential claim is available.
- Key secrecy, constant-time comparison, memory cleansing, process hardening: not functional behaviour.
- Sockets, SQLite, Redis networking and persistence, Express, nginx, shell scripts, the provisioning tool: I/O. The keystore is a map.
- HTML views, OLED drawing, configuration loading: easy members or environment.
- Non-ASCII input to normalisation: case mapping and white space beyond ASCII.
