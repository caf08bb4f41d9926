# A verified model of the gateway's core

NextAPI is a gateway in front of model providers: it routes requests to upstreams, limits and prices
them, and lets an administrator manage keys, prices and settings. This project models the parts whose
behaviour depends on branching, state or protocol, in Dafny, and proves what they are for. Run
`dafny verify dfyconfig.toml` to check it.

## What is modelled

- **Prices.** `Pricing` selects rules by dimension tier, then by currency and `better_rule`, then by the
  first matching segment, and totals the lines in two currencies through `Fx`; `Batch` prices many
  events with one query. `Transfer`, `Printer`, `XmlText`, `XmlTokens` and `XmlTree` are the XML exchange:
  printer, re-layout and stack parser. `RoundTrip` and `NormalForm` say which items survive a round trip;
  `PriceTransfer` groups rules into items and expands items into rows; `PricePreserved` proves that
  exporting a table and importing the file prices every request as before, and `PriceLoss` exactly when.
- **Idempotency keys.** `Json` is the canonical printer behind the fingerprint, `Idempotency` the store,
  `IdempotencyProtocol` the interleaving of its SQL statements.
- **Failover.** `Glob` and `Routing` choose and order candidates, `Failover` runs the candidate and retry
  loops and settles the idempotency record, `StreamText` keeps the tail of a stream.
- **Limits and sessions.** `Limit` and `LoginLimit` are the sliding windows, `Totp` and `Session` the
  codes, the replay cursor and the session version, `ClientIp` (with `Bits`) the trusted-proxy walk.
- **Settings and routes.** `Settings` and `Overlay` lay UI-saved values over the YAML file, `ModelSync`
  reconciles the routes an upstream manages.
- `Wrappers`, `Strings`, `Sorting` and `Numerals` are shared vocabulary.

Loops and objects of the program are methods and classes here, each proved against a function or a
predicate; what the program promises is then proved about those. The functions themselves are tied to what a
caller sees by contracts and lemmas that do not use them: `Pricing.Bill` says what a request is charged,
`Printer.FileText` gives the exported file word for word, `Transfer.SaysItem` what an imported element means,
`Failover.Gated` who is answered what before any upstream is asked, `Session.LoginMeans` when a token is given,
`ClientIp.Names` what a configuration entry trusts, `Overlay.Allowed` what may be saved, `ModelSync.Reconciled`
what a sync leaves, `Limit.Admits` and `LoginLimit.Answers` whom the limiters let through. A map's iteration order and a query's
row order are chosen arbitrarily.

## Where the program differs from its description

- Past the first `fail` of an idempotency row two requests can both be told to proceed
  (`IdempotencyProtocol.FailedRowCanBeHeldTwice`): the UPDATE at src/idempotency.rs:123-131 has no guard on
  the status. Single ownership is proved up to that point.
- An expired row that was not cleaned up yet answers Conflict, not Proceed
  (`Idempotency.ExpiredRowRefuses`).
- A comment in src/billing/transfer.rs:651-652 says decimals lose trailing zeros when they are
  serialized; the code keeps the scale, and so does the model.
- `lock_upstream` does not stop failover after a request conversion that fails for another reason than
  parsing (`Failover.LockedConversionMovesOn`). The converters of this commit never fail so; the theorems on
  failover say which of their parts need that.
- Exporting prices drops the context basis, effective windows and disabled flags. The pricing theorem asks
  for rules that last: enabled, always in effect, and not told apart by their context basis, which holds
  unless a total-tokens rule shows a different price or segment name on the two sides of a segment's bound.
  For token units that condition is exact (`PriceLoss.TokenLinesKeptExactly`); for image and video units the
  exact condition compares the rule before with the rule after (`PriceLoss.LinesKeptExactly`). Token counts
  may be negative, as in the program, so a segment that begins at 0 counts as a bound as well. Priorities and
  sort orders are not exported either, but under the table's unique key they never decide a price.
- An error that blames the request itself is said to end the run. It does not where a route lists such a
  status as retryable: the retry may end in another error, and then the next candidate is executed
  (`Failover.ClientErrorsAreFinalWhen` and `Failover.ImageErrorsAreFinalWhen`, exactly when).
- Converting an amount there and back can miss it where the reciprocal of the rate is rounded, as it is for
  the built-in rate; small amounts come back because the products are rounded too. `Fx.RoundTripReturns` says
  which, `Fx.BuiltinRoundTrip` for the built-in rate: with 28 decimals kept, USD amounts below 1 / 6.6.
- A token rule with a dimension key, which the administration interface accepts, never prices a request, but
  on export it overwrites the price of the plain rule of its unit (`PriceLoss.StrayTakesColumn`).
- A stream whose body is dropped outside a runtime leaves no usage record (`StreamText.TeeStream.DropStream`).

## Model

| member | source | states |
|---|---|---|
| Json.Canon | src/idempotency.rs:60-91 | the printer appends, with sorted object keys, exactly the canonical text of the value |
| Json.CanonUnambiguous | src/idempotency.rs:51-91 | two values have the same canonical text if and only if they are equal up to object key order; array order and every escaped character count |
| Json.TextPrefix | src/idempotency.rs:60-91 | a canonical text is a prefix code: followed by anything that may follow a value, it can be read in one way only |
| Json.EscapesSpelled | src/idempotency.rs:68 | a quote, a backslash and the characters below U+0020 are escaped as section 7 of RFC 8259 says, every other character stands for itself |
| Json.ObjectSpelled | src/idempotency.rs:78-89 | an object of two entries is spelled {"a":x,"b":y}, the lesser key first and without blanks |
| Json.ArraySpelled | src/idempotency.rs:69-77 | an array is spelled [x,y] in its own order; empty arrays and objects as [] and {} |
| Json.FingerprintIsParameters | src/idempotency.rs:51-57 | with a collision-free hash, equal fingerprints mean equal parameters and conversely |
| Idempotency.Store.Begin | src/idempotency.rs:95-156 | run alone, `begin` leaves the rows and gives the answer of the two-round select/insert/take-over decision |
| Idempotency.Store.Complete | src/idempotency.rs:159-177 | writes status, response and task on the one row and keeps keys unique |
| Idempotency.Store.Fail | src/idempotency.rs:180-186 | marks the one row failed and keeps keys unique |
| Idempotency.Store.CleanupExpired | src/idempotency.rs:189-194 | deletes exactly the expired rows and returns how many |
| Idempotency.ReplayAfterComplete | src/idempotency.rs:95-177 | until expiry the same key and parameters get the completed answer back, other parameters a conflict |
| Idempotency.RetryAfterFail | src/idempotency.rs:101-131 | after a failure the same key and parameters take the same row over |
| Idempotency.ExpiredRowRefuses | src/idempotency.rs:101-156 | an expired row that was not cleaned up makes `begin` answer Conflict; cleaning up frees the key |
| Idempotency.FirstRequestGetsKey | src/idempotency.rs:133-150 | where nobody has used the key, `begin` adds one processing row without an answer that expires 24 hours later, and says Proceed with its id |
| Idempotency.SecondRequestWaits | src/idempotency.rs:101-115 | while that row is processing, the same parameters are refused as in progress and others as different, and nothing changes |
| Idempotency.TakeOverStartsAfresh | src/idempotency.rs:116-131 | a request that takes a failed row over leaves no old answer in it and 24 more hours |
| Idempotency.SettlingIsLocal | src/idempotency.rs:159-186 | `complete` and `fail` change how the one row ended and nothing else in the table |
| Idempotency.CleanupKeepsLive | src/idempotency.rs:189-194 | a row is kept, as it is, if and only if it has not expired |
| IdempotencyProtocol.InvRun | src/idempotency.rs:95-194 | over every interleaving of the SQL statements rows, requests and log stay traced, keys unique, unfailed rows singly owned and completed at most once |
| IdempotencyProtocol.OneOwnerUntilFirstFail | src/idempotency.rs:95-156 | in every run a row that was never failed has exactly one request that was told Proceed |
| IdempotencyProtocol.ReplaysAreEarlierAnswers | src/idempotency.rs:103-177 | every Replay returns status and body that one earlier `complete` wrote on that row for the same key and fingerprint |
| IdempotencyProtocol.ReplaysAgree | src/idempotency.rs:103-177 | all replays of a row that never failed are the same answer |
| IdempotencyProtocol.ReplayAnswersEqualParameters | src/idempotency.rs:51-177 | with fingerprints taken by a collision-free hash, a replay answers a request with equal parameters |
| IdempotencyProtocol.FailedRowCanBeHeldTwice | src/idempotency.rs:116-131 | sole ownership ends at the first failure: from any state with a live failed row two retries can both be told Proceed |
| IdempotencyProtocol.FailedRowIsReachable | src/idempotency.rs:95-186 | such a state is reached by a run from the empty table |
| IdempotencyProtocol.UninterruptedIsBegin | src/idempotency.rs:95-156 | without interleaving the protocol steps give the rows and the answer of the atomic `begin` |
| Glob.PatternMatches | src/routing/mod.rs:78-114 | the backtracking matcher decides the declarative meaning of a `*` pattern |
| Glob.WhatStarsMean | src/routing/mod.rs:78-114 | without a star a pattern matches itself only; `a*` matches what begins with a, `*a` what ends with it |
| Routing.MatchRoutes | src/routing/mod.rs:117-127 | exactly the enabled routes whose pattern matches, the lower priority number first and within a priority the lower sort order |
| Routing.WeightedPick | src/routing/mod.rs:132-150 | returns the route into whose stretch of the weight line the draw falls; None only for no routes |
| Routing.DrawSelectsOne | src/routing/mod.rs:132-150 | every draw below the total selects one route and only one |
| Routing.WeightsAreOdds | src/routing/mod.rs:132-150 | as many draws select a route as it has weight, one if that is not positive |
| Routing.OrderGroup | src/gateway.rs:745-763 | a permutation of the group: the drawn route, then the others by descending weight and ascending sort order |
| Routing.OrderCandidates | src/gateway.rs:738-766 | a permutation of the candidates, by priority; each group begins with the member its draw selects and goes on by descending weight and ascending sort order |
| Routing.TargetIsBest | src/gateway.rs:723-735 | passthrough if and only if the upstream speaks the entry protocol; otherwise the first supported protocol of the priority list, and nothing if and only if none is supported |
| Routing.ServableKeepsOrder | src/gateway.rs:1530-1546 | the attempts are the candidates at ascending positions that name every servable one; priority order is kept |
| Routing.ReorderPinnedFirst | src/gateway.rs:979-990 | moves the first attempt at the pinned upstream to the front when it is in the best priority group, and changes nothing otherwise |
| Routing.PinningIsHarmless | src/gateway.rs:979-990 | pinning keeps the attempts, their priority order and the order of all unpinned ones |
| Routing.PlanAttempts | src/gateway.rs:1530-1555 | the attempts are exactly the servable candidates, by priority: the ordered candidates, each group led by its draw, filtered, with at most the one pinned attempt moved to the front |
| Failover.TryCandidate | src/gateway.rs:1729-2112 | the retry loop stops at the first try that does not ask for another, and returns that try |
| Failover.GatewayLoop | src/gateway.rs:1614-2157 | terminates with a trail of visits that moves on only where failover is allowed; status, retry_count and settlement are those of the trail |
| Failover.GatewayOutcomes | src/gateway.rs:161-234 | upstreams answer with a stream if and only if one was asked for, and a passthrough request is never refused |
| Failover.ImagesLoop | src/gateway.rs:3017-3374 | the same for the images loop, where a malformed 2xx body also fails the candidate |
| Failover.RunsAgree | src/gateway.rs:1614-2150 | what the upstreams answer determines the visits |
| Failover.ExecutionsWithinBudget | src/gateway.rs:1614-2150 | at most the sum of 1 + max(retries, 0) executions, 1 for a locked route |
| Failover.LockedFailureIsFinal | src/gateway.rs:2098-2138 | after an upstream failure of a locked route no other candidate is visited |
| Failover.LockedConversionMovesOn | src/gateway.rs:1654-1676 | a conversion failure on a locked route still moves on, unless the request did not parse |
| Failover.ClientErrorIsFinal | src/upstream/mod.rs:49-67 | a client-causal error ends the run at that candidate when it is the last, has no retries, is locked or lists no client status as retryable |
| Failover.ClientErrorsAreFinalWhen | src/gateway.rs:826-838 | client-causal errors at an attempt are final, whatever conversions and upstreams do, if and only if it is the last, allows no retry, lists no client status as retryable, or a locked attempt whose request cannot be refused comes before it |
| Failover.ImageErrorsAreFinalWhen | src/gateway.rs:3017-3348 | the same for images_generations, where every locked candidate before it counts |
| Failover.RetriedClientErrorMovesOn | src/gateway.rs:2076-2138 | in every other case there are conversions and answers for which the client error is retried, the retry fails differently and the next candidate is executed |
| Failover.ValidateKey | src/idempotency.rs:36-48 | accepts exactly the texts that trim to 8 to 128 allowed characters, and returns them trimmed |
| Failover.RunGateway | src/gateway.rs:1557-2157 | a request without a key runs; a key on a stream, or one that is not 8 to 128 allowed characters, is answered 400; otherwise Replay is answered with its status and body, Conflict 409, a failing store 500, and Proceed runs. A run that was told Proceed settles that record exactly once, completing it with exactly the answer sent, which is 200 with what an upstream delivered; any other run settles nothing |
| Failover.RunImages | src/gateway.rs:2972-3374 | the same for images_generations, where an answer is 200 with the images rendered or 202 with the job queued |
| Failover.SecondCall | src/gateway.rs:1557-1612 | over two calls with one key, until the record expires: after a success the same parameters get that very status and body without a run, after a failure they run and settle the same record, and other parameters are answered 409 |
| Failover.FirstErrorDecides | src/upstream/mod.rs:49-67 | the first error is retried if and only if it is a time-out, a refused connection or a listed status and the route has retries; else the next candidate gets the request unless the error is one of 400, 404, 405, 413, 422 |
| Failover.TimeoutsThenAnswer | src/gateway.rs:1729-2112 | a candidate that times out at every try, then one that answers: all its retries are used, retry_count is 1, and the record is completed with that answer |
| Failover.TimeoutsOnly | src/gateway.rs:2113-2157 | a single candidate that times out at every try: retry_count is its retries, none if it is locked, and the record is failed |
| Limit.WindowAllow | src/limit/mod.rs:100-122 | prunes and admits in place exactly as a filter of the deque over the window |
| Limit.RateLimiter.CheckRpm | src/limit/mod.rs:37-60 | a key whose own limit is not positive is never refused, and the default counts only for a key without one; under a limit the call is admitted if and only if fewer calls lie in the last 60 s, the deque keeps those and the call admitted, and no other key is touched |
| Limit.RateLimiter.RpmStatus | src/limit/mod.rs:63-86 | nothing for an unlimited key; else its limit and how far the calls younger than 60 s stay below it; the deques do not change |
| Limit.RateLimiter.RemoveKey | src/limit/mod.rs:89-93 | forgets that key only |
| Limit.DequeIsHistory | src/limit/mod.rs:100-122 | for non-decreasing times the pruned deque is the filter of the whole admission history |
| Limit.RefusedOnlyWhenFull | src/limit/mod.rs:100-122 | a call is refused if and only if that many admitted calls already lie in its window |
| Limit.AtMostLimitPerWindow | src/limit/mod.rs:100-122 | every closed interval of window length contains at most `limit` admitted calls |
| Limit.StatusIsRemaining | src/limit/mod.rs:63-86 | the shown remaining count is the number of calls still admitted, plus the events exactly 60 s old |
| Limit.KeysAreIndependent | src/limit/mod.rs:37-60 | over any run the deque of a key depends on that key's calls only |
| LoginLimit.LoginRateLimiter.CheckLogin | src/auth/mod.rs:893-922 | a tracked user is judged by the calls of the last 60 s, a new one admitted while fewer than 10,000 are tracked; else those not seen for 600 s are forgotten, and the user is turned away if the map is still full; a limit of zero lifts the check |
| LoginLimit.CheckKeeps | src/auth/mod.rs:884-926 | no check makes the map exceed 10,000 entries |
| LoginLimit.EvictionIsInvisible | src/auth/mod.rs:893-926 | an evicted entry holds no event that any later window could see |
| LoginLimit.CheckIsIdeal | src/auth/mod.rs:893-922 | one check gives the verdict of an unbounded limiter unless the user is turned away for lack of room |
| LoginLimit.BoundedLimiterIsIdeal | src/auth/mod.rs:884-926 | over every run every verdict is that of the unbounded limiter, apart from new users turned away when full |
| LoginLimit.TurnedAwayMeansFullOfActives | src/auth/mod.rs:893-926 | a user is turned away only when untracked and the map is full of users seen within the idle time |
| Bits.ShrEqualIsBitsEqual | src/auth/mod.rs:726-736 | equality after a right shift is equality of all higher bits |
| Totp.SameBytes | src/auth/totp.rs:57-80 | the comparison that does not stop early decides equality |
| Totp.Verify | src/auth/totp.rs:57-80 | the earliest step within one of now whose code it is, for six-digit trimmed codes, else none |
| Totp.VerdictUnique | src/auth/totp.rs:57-80 | that description has one solution |
| Totp.TruncateBits | src/auth/totp.rs:41-55 | the number is the four bytes at the offset the last nibble names, highest first and without the top bit |
| Totp.TruncateExample | src/auth/totp.rs:41-55 | the example of section 5.4 of RFC 4226: 0x50ef7f19, code 872921 |
| Totp.CodeReads | src/auth/totp.rs:41-55 | the code is six digits that read as that number modulo 10^6 |
| Session.AdminUsers.HandleLogin | src/auth/mod.rs:171-294 | within the rate limit a token is given if and only if the user exists, the password verifies and, with TOTP on, the earliest step within one of now whose code was given lies beyond the cursor; the claims are name, version and now + lifetime, that step becomes the cursor, and any other answer says what was missing and changes nothing |
| Session.AdminUsers.HandleSetup | src/auth/mod.rs:402-455 | stores a new secret only while TOTP is off, with an empty cursor |
| Session.AdminUsers.HandleEnable | src/auth/mod.rs:458-513 | a valid code enables TOTP, sets the cursor to its step and bumps the session version |
| Session.AdminUsers.HandleDisable | src/auth/mod.rs:516-573 | password and code disable TOTP, clear secret and cursor and bump the version |
| Session.AdminUsers.HandleChangePassword | src/auth/mod.rs:306-368 | the new hash and the bumped version in one update |
| Session.AdminUsers.HandleSensitiveVerify | src/auth/mod.rs:597-648 | a sensitive operation needs the password and, with TOTP on, a fresh code |
| Session.LoginIs | src/auth/mod.rs:207-294 | the login step of the runs below means that too |
| Session.SetupIs | src/auth/mod.rs:417-437 | a secret is stored if and only if the password verifies and TOTP is off |
| Session.EnableIs | src/auth/mod.rs:470-500 | TOTP is switched on if and only if it is off and the code is one of the pending secret, whose step is consumed; the version moves on, unless it is the last of 32 bits |
| Session.DisableIs | src/auth/mod.rs:528-560 | TOTP is switched off if and only if it is on, the password verifies and the code is unused; secret and cursor are cleared and the version moves on |
| Session.ChangePasswordIs | src/auth/mod.rs:317-356 | the new hash is stored if and only if the old password verifies and the new one has 8 characters and differs; the version moves on |
| Session.SensitiveVerifyIs | src/auth/mod.rs:597-648 | passes if and only if password and, with TOTP on, an unused code are given, which is consumed |
| Session.SessionLifetime | src/auth/mod.rs:820-838 | a session validates if and only if its lifetime and 60 s have not passed and the version of its user is still the same |
| Session.InvRun | src/auth/mod.rs:171-648 | every run of handlers keeps the cursor invariants |
| Session.StepsStrictlyIncrease | src/auth/mod.rs:223-267 | within one secret's lifetime accepted steps strictly increase, so no code step is accepted twice (section 5.2 of RFC 6238) |
| Session.CursorEmptyWhileDisabled | src/auth/mod.rs:402-572 | while TOTP is not enabled the replay cursor is null |
| Session.RevokedForever | src/auth/mod.rs:820-838 | a token issued before a password change, enable or disable of its user never validates again |
| Session.OthersRevokeNothing | src/auth/mod.rs:820-838 | every other handler leaves the validity of every token as it was |
| Session.LoginConsumes | src/auth/mod.rs:223-294 | the token a login hands out validates at once, and the code it consumed does not log in again |
| Session.TokensAreEarned | src/auth/mod.rs:171-294 | over every run each token in circulation traces back to a login whose password, and with TOTP on an unused code, verified against the table as it then stood |
| ClientIp.InNetIsPrefixAgreement | src/auth/mod.rs:726-736 | the xor-and-shift test is agreement on the first `prefix` bits, for both families |
| ClientIp.ParseTrustedNets | src/auth/mod.rs:695-724 | keeps exactly the well-formed entries, in order; an address is trusted if and only if some entry names it |
| ClientIp.ResolveClientIp | src/auth/mod.rs:762-816 | a peer that no entry names is the answer whatever the headers say; for any other the rightmost forwarded entry that is neither blank nor trusted decides; fallbacks as coded |
| ClientIp.NetNames | src/auth/mod.rs:698-724 | a bare entry names the address it parses to and no other; `a/p` the addresses of its family that agree with a on the first p bits, p within the width; any other entry names nothing |
| ClientIp.OneEntryAnswers | src/auth/mod.rs:783-815 | a single forwarded entry is the answer if it is an address and leaves none otherwise; without one it is X-Real-IP, else the peer |
| ClientIp.DecidesUnique | src/auth/mod.rs:775-800 | there is at most one deciding entry |
| ClientIp.LeftIsIrrelevant | src/auth/mod.rs:775-800 | nothing to the left of the deciding entry can change the answer |
| Settings.FlattenJson | src/config.rs:476-496 | appends exactly the flattened leaves of the value |
| Settings.FlatIsLeaves | src/config.rs:476-504 | a key and value are listed if and only if a leaf path leads to the value and spells the key |
| Settings.FlatOfConforming | src/config.rs:498-504 | for a configuration tree these are exactly the leaves of its schema under their dotted keys |
| Settings.HotKeys | src/config.rs:498-504 | the key space of the UI is the set of dotted leaf paths |
| Settings.WriteIsLocal | src/config.rs:529-556 | lens law: a value written at a leaf is read there, no other leaf changes, and the tree still conforms if and only if the value fits |
| Settings.OverrideIsLocal | src/config.rs:529-576 | the same through the dotted key, including the type check after the write |
| Settings.LeavesDetermine | src/config.rs:476-504 | a configuration tree is determined by its leaves |
| Settings.DottedInjective | src/config.rs:529-538 | different leaves have different dotted keys |
| Overlay.SettingsEngine.MergeEffective | src/settings.rs:390-413 | YAML with exactly the valid UI-saved leaves written over it, whatever the order of the rows |
| Overlay.MergeIsUnique | src/settings.rs:390-413 | there is only one such tree |
| Overlay.MergedFlattensToOverlay | src/settings.rs:390-413 | the effective configuration flattens to the YAML leaves overridden by exactly the valid UI rows |
| Overlay.SettingsEngine.Put | src/settings.rs:259-338 | accepted if and only if every entry is allowed: the address any string, the secret only where it can be encrypted, the pool size 1 to 256, the database address never, a leaf a value of its kind; then exactly the unmasked entries become UI rows as the request spells them, the secret encrypted, else nothing changes |
| Overlay.JudgeIsRuling | src/settings.rs:259-306 | what is accepted depends on the schema alone, not on the configuration in force |
| Overlay.RulingAllows | src/settings.rs:259-306 | which entries are refused, masked or saved, and as what, key by key |
| Overlay.PoolSizes | src/settings.rs:425-475 | `database.max_connections` takes a plain number, or its text, if and only if it is 1 to 256 |
| Overlay.NumbersThatFit | src/config.rs:529-576 | a numeric leaf takes a whole number if and only if it is within its bound, and nothing negative |
| Overlay.SettingsEngine.OnFileReload | src/settings.rs:145-178 | refreshes file rows, adds missing keys, leaves UI rows alone and recomputes the configuration |
| Overlay.SettingsEngine.constructor | src/settings.rs:84-142 | keeps stored rows, adds the missing hot and startup keys and computes the configuration |
| Overlay.SavedStartupReadsBack | src/settings.rs:56-75 | a saved startup value is read back as saved, if and only if it was encrypted or does not look encrypted |
| Overlay.UiRowIsLastSave | src/settings.rs:145-338 | over any run of saves and reloads a leaf's UI row is its last accepted save, or the one it began with |
| Overlay.EffectiveIsOverlay | src/settings.rs:145-413 | over any run the effective configuration shows at every leaf the last accepted save, else a valid initial UI row, else the YAML loaded last |
| ModelSync.RouteStore.SyncAuto | src/admin/model_sync.rs:214-343 | fails, leaving everything as it was, if and only if a model that nobody routes was offered twice; else a managed route stays if and only if its model is still asked for, every other row stays, the models nobody routes are added with the settings of a managed route, those only others route are skipped, and the report says so |
| ModelSync.OnlyManagedRoutesChange | src/admin/model_sync.rs:235-320 | manual routes and other upstreams' routes are never touched; new routes are managed ones of this upstream |
| ModelSync.SyncReconciles | src/admin/model_sync.rs:235-343 | the same of the reconciled table the lemmas speak of, in terms of rows and the offered models |
| ModelSync.RepeatsFail | src/admin/model_sync.rs:301-318 | the unique index is broken if and only if a model to be added was offered twice |
| ModelSync.SyncedReconciles | src/admin/model_sync.rs:235-320 | afterwards the managed routes are wanted ones, and every wanted model has a route or was skipped |
| ModelSync.DesiredIsPartitioned | src/admin/model_sync.rs:260-320 | the desired models are partitioned into added, skipped and already own |
| ModelSync.SyncIsIdempotent | src/admin/model_sync.rs:214-343 | a second sync with the same list changes nothing |
| ModelSync.RunsKeepOneManager | src/admin/model_sync.rs:214-343 | over any run of syncs no pattern is auto-managed by two upstreams |
| StreamText.BoundaryIsBetweenChars | src/text.rs:7-16 | the byte test finds exactly the places between characters (section 3 of RFC 3629) |
| StreamText.TruncateBytes | src/text.rs:7-16 | the longest prefix on a character boundary within the limit |
| StreamText.StreamCollect.AppendChunk | src/gateway.rs:275-298 | the buffer is the longest suffix on a character boundary within 256 KiB |
| StreamText.TailOfTail | src/gateway.rs:275-298 | keeping the tail early loses nothing |
| StreamText.Utf8Spelled | src/text.rs:7-16 | one character of each width in bytes (section 3 of RFC 3629) |
| StreamText.CollectedIsTail | src/gateway.rs:275-298 | after any chunk sequence the buffer is the tail of the concatenated text |
| StreamText.TeeStream.PollNext | src/gateway.rs:327-371 | forwards what the inner body yields and writes the usage record at most once |
| StreamText.TeeStream.DropStream | src/gateway.rs:373-384 | after the drop the usage record has been written exactly once if it was written before or there is a runtime to write it, else never |
| Fx.BuildFxSet | src/billing/fx.rs:40-93 | the table holds exactly the effective rates: manual, else fresh auto, else the inverse of the opposite non-zero listing |
| Fx.ListedRates | src/billing/fx.rs:45-74 | the first pass keeps the first manual row, else the first fresh auto row of a pair |
| Fx.UsableRowApplies | src/billing/fx.rs:40-144 | a manual row, or an automatic one not older than the limit where there is no manual one, multiplies amounts of its pair, and its rounded reciprocal those of the opposite pair that has no usable row |
| Fx.BuiltinApplies | src/billing/fx.rs:96-144 | without a usable row a dollar is 6.73 yuan, and a yuan the rounded reciprocal |
| Fx.RowOrderIsIrrelevant | src/billing/fx.rs:40-93 | with the primary key respected the rates do not depend on row order |
| Fx.ConvertIsTotalOnCnyUsd | src/billing/fx.rs:102-144 | conversion fails if and only if the currencies differ, have no rate and are not CNY and USD |
| Fx.CnyAndUsdConvert | src/billing/fx.rs:96-144 | CNY and USD always convert |
| Fx.RecipError | src/billing/fx.rs:72-90 | a rate times its rounded reciprocal misses one by at most half a unit of the last place at the size of the rate, and hits it if and only if the division ends |
| Fx.RoundTripError | src/billing/fx.rs:40-144 | with at most one direction listed, converting there and back misses the amount by no more than that error and the rounding of the two products allow |
| Fx.RoundTripMisses | src/billing/fx.rs:40-144 | an amount does not come back if the residue of rate and reciprocal, taken at that amount, is larger than the rounding of the two products can hide |
| Fx.RoundTripReturns | src/billing/fx.rs:40-144 | when the first product needs no rounding and the second is rounded to a unit the amount is a multiple of, the amount comes back if and only if its residue is less than half that unit (ties aside) |
| Fx.BuiltinRoundTrip | src/billing/fx.rs:96-144 | without a listed rate a USD amount of i units of the last place kept comes back from CNY if and only if 66 |i| < 10^29 |
| Pricing.DimensionKeyIsDimensions | src/billing/mod.rs:88-101 | two dimension objects have the same key if and only if they are equal |
| Pricing.CeilSecondsIsLeast | src/billing/mod.rs:164-175 | billed seconds are the least whole number that is at least one and not below the duration |
| Pricing.WindowAndSwapCoverTheDay | src/billing/mod.rs:205-216 | a window and its swap cover the day and share only the minute where the earlier one ends |
| Pricing.FirstMatchAt | src/billing/mod.rs:263-281 | the first matching segment in array order, None if and only if none matches |
| Pricing.BetterIsStrictTotalOrder | src/billing/mod.rs:185-196 | `better_rule` is a strict total order on rules with distinct ids |
| Pricing.BestIn | src/billing/mod.rs:340-354 | a candidate of the currency that no other beats; None if and only if the currency has no candidate |
| Pricing.BestByCurrency | src/billing/mod.rs:340-354 | the map holds for each currency its best candidate |
| Pricing.PriceUnit | src/billing/mod.rs:303-381 | adds exactly the lines due for one unit, whatever the order of the currency map |
| Pricing.PriceWithRules | src/billing/mod.rs:284-452 | the bill: a line for each unit and currency that owes something, in unit order, of exactly the counter of its unit, at the price the elected rule shows, costing price times quantity, per million for tokens; its record names that rule; totals and conversion records are those of the lines |
| Pricing.LinesAreCharged | src/billing/mod.rs:133-381 | a line of the engine is what its unit owes (cache reads for token_cache_read, seconds rounded up for video_second), charged by the elected rule at its first segment that holds, else its base price; with distinct ids every such charge has its line |
| Pricing.KeyIsWanted | src/billing/mod.rs:100-125 | the dimension key asked for is {"image_size":..}, {"resolution":..,"task_type":..} or what of it is known, else empty |
| Pricing.HhmmReads | src/billing/mod.rs:199-204 | HH:MM reads as 60 HH + MM |
| Pricing.OtherCountersDoNotMatter | src/billing/mod.rs:133-144 | where no rule of a unit looks at total tokens, its line depends on the prompt and its own counter only |
| Pricing.OneLineEach | src/billing/mod.rs:384-452 | a line in each currency: each total is one cost plus the other converted |
| Pricing.Totals | src/billing/mod.rs:384-452 | each total is the direct sum plus the converted sum, present if and only if a line contributes |
| Pricing.RuleOrderIsIrrelevant | src/billing/mod.rs:185-196 | neither the order of the rules nor disabled ones among them can change a line |
| Pricing.LinesAreDetermined | src/billing/mod.rs:284-381 | two runs on the same enabled rules in any order list the same lines, each once |
| Pricing.BothTotalsExist | src/billing/mod.rs:384-452 | with a CNY or USD line both totals exist: direct sum plus converted sum |
| Pricing.SnapshotExplainsTotals | src/billing/mod.rs:402-428 | every CNY or USD line leaves one conversion record, and its rate is the one that made the converted amount |
| Pricing.RecordsAgree | src/billing/mod.rs:284-452 | the lines and price records of a run are also those of a run on the same enabled rules in another order |
| Batch.CollectPairs | src/billing/mod.rs:505-522 | the keys of exactly the eligible events, each once |
| Batch.GroupRules | src/billing/mod.rs:541-547 | each group holds exactly the fetched rules of its key |
| Batch.ListingsAgree | src/billing/mod.rs:529-547 | any two listings of the same rules price alike |
| Batch.PriceBatch | src/billing/mod.rs:495-590 | every event that failed, was priced, has no usage or no upstream stays as it is; every other gets the bill of its own usage under the enabled rules of its upstream and of the model name its upstream knows, with costs, source and records, or stays unpriced where there is no line |
| Batch.AloneIsBilled | src/billing/mod.rs:459-495 | the specification the batch is proved against bills an event by its own usage and its upstream model name |
| Numerals.IntReadsBack | src/billing/transfer.rs:93-98 | the text of an i64 reads back as the same number |
| Numerals.DecReadsBack | src/billing/transfer.rs:69-136 | the text of a decimal reads back as the same decimal, scale included |
| Numerals.NumbersSpelled | src/billing/transfer.rs:69-136 | a sign, plain digits, and as many decimals as the scale says |
| XmlText.EscapeIsCharwise | src/billing/transfer.rs:60-66 | the five chained replacements are one character-wise substitution: none touches what another wrote |
| XmlText.EscapedIsInert | src/billing/transfer.rs:60-66 | escaped text holds no character that could end a tag, an attribute or a text |
| XmlText.UnescapeEscaped | src/billing/transfer.rs:443-473 | resolving references undoes escaping (section 4.6 of XML 1.0) |
| XmlText.ContentOfEscaped | src/billing/transfer.rs:443-473 | escaped character data stands for the original up to line ends |
| XmlText.ContentOfTrimmed | src/billing/transfer.rs:324-340 | trimming raw text first changes neither whether it reads nor its trimmed reading |
| XmlText.AttrContentOfEscaped | src/billing/transfer.rs:388-400 | an escaped attribute value stands for the original up to attribute-value normalization |
| XmlTokens.LexLoop | src/billing/transfer.rs:273-298 | the lexing loop splits the text into its tokens |
| XmlTokens.LexConcat | src/billing/transfer.rs:273-298 | lexing the concatenation of proper tokens gives the tokens back |
| XmlTokens.PrettyXml | src/billing/transfer.rs:259-354 | the printing loop produces the specified layout |
| XmlTokens.LayoutSpelled | src/billing/transfer.rs:300-354 | a declaration, an element, a leaf and an empty element, line by line with two spaces for what is inside |
| XmlTokens.LexOfPretty | src/billing/transfer.rs:300-354 | the laid-out text has the original tags and leaf texts, with white space between |
| XmlTree.ParseTree | src/billing/transfer.rs:403-482 | the stack loop computes the tree, or the error, of the events |
| XmlTree.PrettyIsLayoutOnly | src/billing/transfer.rs:254-354 | for every text that the reader modelled here accepts and in which no element mixes text with elements, parsing the pretty form equals parsing the original up to white space around texts |
| XmlTree.DocRuns | src/billing/transfer.rs:403-482 | parsing a printed element hangs exactly its node under the open element |
| XmlTree.DocumentReadsBack | src/billing/transfer.rs:212-482 | a printed document reads back as its tree, compact or laid out |
| Printer.SegmentXml | src/billing/transfer.rs:69-101 | spells the segment element |
| Printer.SegmentsToXml | src/billing/transfer.rs:105-116 | spells the segments, or nothing if and only if they do not read or there are none |
| Printer.TokenColXml | src/billing/transfer.rs:127-144 | spells the column: bare number, or price and segments, or nothing without a price |
| Printer.DimensionsXml | src/billing/transfer.rs:191-208 | spells the entries of a non-empty object in key order |
| Printer.MediaXml | src/billing/transfer.rs:147-180 | spells the media node with one item per rule |
| Printer.ExportXmlCompact | src/billing/transfer.rs:217-252 | the file word for word: declaration, root with its schema, and of each item model_id, upstream, currency, the four price columns with the segments of their units, image and video |
| Printer.ExportXml | src/billing/transfer.rs:212-214 | the laid-out form of exactly that text |
| Printer.CompactIsFile | src/billing/transfer.rs:69-252 | the document that the round trips are about has exactly that text |
| RoundTrip.ItemSqueezed | src/billing/transfer.rs:485-636 | the item read from a node does not depend on white space around its texts |
| RoundTrip.SegmentReadsBack | src/billing/transfer.rs:498-530 | a printed segment reads back in normal form |
| RoundTrip.ItemReadsBack | src/billing/transfer.rs:586-633 | a printed item reads back in normal form |
| RoundTrip.ExportImports | src/billing/transfer.rs:212-636 | for every list of items, importing the exported text, compact or laid out, yields their normal forms |
| RoundTrip.RoundTripIsExact | src/billing/transfer.rs:212-636 | the list comes back unchanged if and only if every item is its own normal form |
| NormalForm.NormalFormIsFixed | src/billing/transfer.rs:484-636 | an item is its own normal form if and only if its texts are trimmed and free of carriage returns, no array is empty, dimensions are strings and segments stand on priced columns |
| NormalForm.RoundTripOfNormalForms | src/billing/transfer.rs:212-636 | parse(export(items)) == items if and only if every item meets those conditions |
| NormalForm.ReadItem | src/billing/transfer.rs:586-633 | the column loop and the media nodes read exactly the item of the node, each field from the child of its name |
| NormalForm.ReadXml | src/billing/transfer.rs:581-636 | parse_xml: one item for each price element, saying what that element says, or the error |
| Transfer.ItemSays | src/billing/transfer.rs:498-633 | each field of an item is the trimmed text, number, segments or rules of the first child of its name: input_per_m the price of token_in and so on; a column is its price element where that is a number, else its own text |
| Transfer.LabelledPrices | src/billing/transfer.rs:586-616 | whatever else a price node holds and in whatever order, its four labelled numbers are read as what they are labelled |
| PriceTransfer.BuildExportItems | src/admin/pricing.rs:630-707 | one item per (upstream, model, currency), holding what its rows add up to, by upstream name, then model, then currency |
| PriceTransfer.ItemShows | src/admin/pricing.rs:638-676 | each price of an exported item is that of the last rule of its key and unit, and image and video list all rules of theirs, whole |
| PriceTransfer.ExpandItem | src/admin/pricing.rs:932-980 | a token_in row at input_per_m, token_out at output_per_m and the two cache units likewise, with the segments of the unit, then a row for each image and video rule; all of them by prompt length |
| PriceTransfer.NegativePrice | src/admin/pricing.rs:1054-1062 | the sign test on the mantissa is the test for a negative price |
| PriceTransfer.AnalyzeImport | src/admin/pricing.rs:1077-1139 | the report of judging the items one after the other |
| PriceTransfer.ItemIsJudged | src/admin/pricing.rs:1062-1139 | an item fails if its upstream is unknown, it has no prices or a row is not acceptable; it is skipped if and only if each of its rows is where an imported one of this file stands; else all its rows are imported |
| PriceTransfer.ImportedRowsAreAcceptable | src/admin/pricing.rs:1035-1060 | no row with a negative price, another currency than CNY and USD or an unknown unit is ever imported |
| PriceTransfer.AnalysisAccounts | src/admin/pricing.rs:1077-1139 | total = succeeded + skipped + failed; every imported row is valid and its key remembered; failures name items in order |
| PricePreserved.ColumnOfKey | src/admin/pricing.rs:638-676 | a column of an exported item holds price and segments of its one rule, or nothing |
| PricePreserved.MediaOfKey | src/admin/pricing.rs:638-676 | the media list of an exported item holds exactly its rules |
| PricePreserved.ExpansionIsRules | src/admin/pricing.rs:932-1016 | expanding an item read back from the file gives exactly the rows of the rules it was made of |
| PricePreserved.ExportedTableImportsWhole | src/admin/pricing.rs:630-1139 | importing an exported table accepts every item, and the rows are those of the rules, one for each |
| PricePreserved.LinePreserved | src/billing/mod.rs:284-381 | from the stored rows every unit and currency gets the same line, up to rule id and segment name, if the rules that may price it are enabled, always in effect and not told apart by their context basis |
| PricePreserved.ExportImportPreservesPricing | src/admin/pricing.rs:614-1139 | after export, import and storing, every request to an upstream and model whose rules last is priced as before: same lines and same totals, up to rule ids and segment names trimmed or dropped when empty |
| PricePreserved.SteadyBetween | src/billing/mod.rs:219-261 | checking the bounds of the segments decides whether any two context lengths show a different price or name |
| PriceLoss.LossIsSeen | src/admin/pricing.rs:657-707 | where the rule that prices a request and the rule whose stored row will price it are not alike, the request returned, at that instant, gets another line after import |
| PriceLoss.LinesKeptExactly | src/admin/pricing.rs:657-1016 | the stored rows keep all lines of a unit, for all requests with the same dimensions at the clock of their instant, if and only if at every instant and in every currency the rule before and the rule after show the same prices and names |
| PriceLoss.OneTierKeptExactly | src/admin/pricing.rs:657-1016 | where all rules that may price them have one dimension key, if and only if each of these rules is enabled, has no window and is at no instant told apart by its context basis |
| PriceLoss.TokenLinesKeptExactly | src/admin/pricing.rs:657-1016 | for token units: all lines of all requests are kept if and only if every rule of the unit is enabled, has no window and is at no instant told apart by its context basis |
| PriceLoss.SameEverywhere | src/billing/mod.rs:219-261 | comparing two rules at the bounds of their segments decides whether they show the same at every context length |
| PriceLoss.StrayTakesColumn | src/admin/pricing.rs:638-676 | a token rule with a dimension key takes over the exported column of its unit, which comes back as a rule that does price requests |
| PriceLoss.StrayNeverPrices | src/billing/mod.rs:104-127 | though no request is ever priced by such a rule |
| PriceLoss.ExportImportKeepsExactly | src/admin/pricing.rs:614-1139 | the equivalence of LinesKeptExactly from the exported file to the stored rows |

## Left out

- HTTP clients, SSE and WebSocket transports, the Codex and Devin channels, media download and proxy selection: input and output over libraries.
- Protocol conversion (`crate::protocol`), health checks and circuit breaking: what an upstream answers is an arbitrary function of candidate and try.
- SHA-256, HMAC-SHA1, AES-GCM, argon2 and JWT signatures: abstract functions; signatures are taken for granted and only expiry and version are checked.
- XmlTree.ParseTree: reads the XML this program emits (double-quoted attributes separated by one space); comments, CDATA, namespace prefixes and a `>` inside quotes, which quick-xml accepts, are parse errors here, because quick-xml is not part of this model.
- XmlTree.PrettyIsLayoutOnly: says nothing of texts with such constructs; on a `>` inside quotes the re-layout, which ignores quotes, can change the attribute.
- rust_decimal: `ParseDec` reads plain numerals of at most 28 decimals exactly and does not read underscores, a bare leading or trailing point or digits that need rounding; amounts and products are exact reals, and the reciprocal of a rate is taken as the nearest decimal of at most 28 places that fits 96 bits, ties to even.
- Fx.Convert: the product of amount and rate is not rounded; the round-trip lemmas allow for its rounding.
- The serde rules by which a `segments` column deserializes: the column is what the deserializer reads; media columns are arrays of rule objects.
- The JSON forms of export and import (`export_json`, `parse_json`, `detect_format`): serde does the work.
- The time-zone database: weekday and minute of a request are inputs; so are clocks, random draws and the lossy decoding of stream chunks.
- The stores are in memory; failures of the database while a save or a sync is written are not modelled.
- Numbers printed as negative zero or with an exponent by serde_json beyond their text: a JSON number is its text.
- The tree edit of `set_json_path` follows its cursor by recursion and returns the new tree instead of changing it in place.
- `openai_responses_compact`, which repeats the candidate loop of `run_gateway` without conversion and without idempotency keys.
- Candidates that the circuit breaker or missing capabilities remove before ordering.
- The upstream kinds with an image interface of their own in `images_generations`: their outcomes are those of `render`.
- Quotas, token-per-minute pre-checks, list and CRUD handlers, statistics, metrics, audit records, field-length validators and the front end: one-branch facts or SQL.
- Pricing.LineFor: does not model a request whose total exceeds what a 96-bit decimal holds, because amounts are exact.
- PricePreserved.ExportImportPreservesPricing: asks for token rules without dimension keys; what happens with one is `PriceLoss.StrayTakesColumn`. It speaks of a table imported where no price rules are stored; rows that meet an existing rule keep its priority, sort order and window.
- PriceTransfer.AnalyzeImport: does not claim that imported keys are distinct, because an item with some keys already seen is appended whole (src/admin/pricing.rs:1117-1127).
