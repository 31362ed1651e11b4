# helm-mcp: verified model

A Dafny model of the stateful decision code of helm-mcp, the MCP server for Helm
and its Python client: the two authentication caches and the middleware that
composes them, the manifest sanitizer, the circuit breaker, the values merge, the
client's layered call dispatch, the verified binary install, the symlink check on
paths, the retry delay and the response budget. `dafny verify dfyconfig.toml`
checks everything.

Code that changes objects in place is modelled by classes and methods over the
heap (`Jwks.JwksCache`, `Session.SessionCache`, `Breaker.CircuitBreaker`,
`Dispatch.HelmClient`, `Install.Directory`, and the map nodes of `Json`). Where
several callers interleave, a state machine lists the atomic steps, and results
hold for every sequence of enabled steps, that is, every interleaving.

| file | what it models |
|---|---|
| `Jwks.dfy`, `JwksProtocol.dfy`, `JwksNeed.dfy` | the JWKS key cache as an object, and every interleaving of key lookups under its read/write lock |
| `Session.dfy` | the session cache: sliding window, expiry, cleanup, eviction |
| `Auth.dfy` | the OIDC branch of the middleware over the session cache, with interleaved requests |
| `Noise.dfy`, `Text.dfy`, `Sanitize.dfy`, `Manifest.dfy`, `TrimLaws.dfy`, `SanitizeLaws.dfy`, `ManifestLaws.dfy`, `ManifestTwice.dfy` | the line-based manifest sanitizer |
| `Json.dfy`, `StripFields.dfy`, `StripLaws.dfy` | the recursive in-place JSON stripper |
| `Json.dfy`, `Values.dfy`, `MergeLaws.dfy` | the in-place deep merge of values and its algebra |
| `Breaker.dfy` | the Go circuit breaker |
| `Dispatch.dfy` | `HelmClient.call_tool` and the proxy's retry middleware |
| `Install.dfy` | `ensure_binary`, one run and many concurrent runs |
| `PathText.dfy`, `Paths.dfy` | paths as text, and `ValidatePath` over a file system with symlinks |
| `Retry.dfy`, `Budget.dfy`, `Arithmetic.dfy` | backoff in 64-bit integers, the attempt loop, truncation |

## Conventions and assumptions

- Times are integers and the clock does not go back. Each method takes the clock
  readings its source makes as parameters; the state machines advance the clock
  between any two steps.
- A heap value made of maps is described by a ghost `Json.Tree<Node>` that names
  the node of every map. `Matches` says that the heap holds it, `Separate` that
  no node occurs twice, as in decoded JSON or YAML.
- Maps are ranged over in any order (`:| key in todo`); all results hold for all
  orders.
- `Dispatch` leaves to `*` what the network and other coroutines do, and is given
  what the breaker library answers in each round; `Install.Directory` is given
  where a fault strikes.
- The token hash is injective; the JWT library is a validator function of token
  and time; SHA-256 is any function of the bytes. `mkstemp` never gives out a
  name twice.
- White space is ASCII. Strings in `Budget` are sequences of bytes.
- `Sanitize` and `StripFields` are proved for any rule set; `GO_RULES` and
  `Noise.NOISY_ANNOTATIONS` are the ones in use. `Paths` is proved for any set of
  aliases; `SYSTEM_ALIASES` is the one in use.

Where code and comments differ, the model follows the code:

- `internal/resilience/circuitbreaker.go` speaks of one probe in half-open state;
  every caller is admitted until one reports (`Breaker.NoSingleProbe`).
- `internal/resilience/sanitize.go` says a document that is not JSON after
  conversion is returned unchanged; no conversion takes place.
- `internal/security/oidc.go` calls minRefresh a bound on how often a refetch may
  be forced; a failed fetch is not counted, so the bound is on successful ones
  (`JwksProtocol.AttemptsAreLimitedButForFailures`, `JwksProtocol.FailuresAreUnlimited`).
- A cached session is still accepted at the very instant of its expiry, where the
  validator no longer accepts (`Auth.CacheAgreesExceptAtExpiry`).
- `internal/resilience/retry.go` promises min(max, base * 2^attempt + jitter); in
  64-bit integers a large base or max overflows (`Retry.FitsExactly`), and the
  random generator then panics (`Retry.SomeAttemptPanics`).

## Model

| member | source | states |
|---|---|---|
| `Jwks.CollectKeys` | internal/security/oidc.go:474-495 | a fetched key set is accepted exactly when some entry is a usable RSA signing key, so an accepted map is never empty; it maps a kid exactly when a signing key carries it, and the last such key wins |
| `Jwks.JwksCache.Refresh` | internal/security/oidc.go:411-431 | cached keys are returned when fresh for that URL, else the fetch's; all three fields change together on success and none on failure |
| `Jwks.JwksCache.GetKeys` | internal/security/oidc.go:388-398 | the check under the read lock decides first, the recheck under the write lock next, both with the one-hour limit |
| `Jwks.JwksCache.RefreshKeys` | internal/security/oidc.go:405-407 | the same with the minRefresh limit |
| `JwksProtocol.HandoutsAreWholeAndFresh` | internal/security/oidc.go:388-431 | over every interleaving of any number of lookups, a handed-out map is non-empty, is the whole answer of one fetch of the requested URL, and is younger than the caller's limit unless that caller has just fetched it |
| `JwksProtocol.PublishedKeyIsFound` | internal/security/oidc.go:160-171 | after key rotation, a kid served from some time on is never reported missing by a lookup that starts minRefresh (plus the fetch latency) later, however stale the cached map |
| `JwksProtocol.WithdrawnKeyIsRefused` | internal/security/oidc.go:388-431 | the dual: a kid no longer served is never accepted by a lookup that starts one ttl (plus the latency) later |
| `JwksProtocol.FetchesAreRateLimited` | internal/security/oidc.go:374-377 | when all lookups ask for one URL, successful fetches are asked for, and stamped, minRefresh apart, hence at most 1 + T/minRefresh in any window T, whatever kids are asked for |
| `JwksProtocol.FewMeans` | internal/security/oidc.go:374-377 | what the window bounds amount to: n times in a window T, minRefresh apart, satisfy (n - 1)·minRefresh <= T |
| `JwksProtocol.AttemptsAreLimitedButForFailures` | internal/security/oidc.go:405-425 | counting the fetches started, those under way and failed ones included, a window T holds at most 1 + T/minRefresh and the failed ones on top |
| `JwksProtocol.FailuresAreUnlimited` | internal/security/oidc.go:374-425 | those are not limited: for every n a run in which, at one instant and with keys cached, n lookups with made-up kids each force a refetch that fails |
| `JwksProtocol.RunIsSequenceOfRefreshes` | internal/security/oidc.go:412-431 | over every interleaving the cache goes through what a sequence of whole `JwksCache.Refresh` calls leaves behind: each successful fetch is such a call on what the one before left, with its own recheck, answer and stamp times; a failed one changes nothing; a lookup served from the cache is one that finds its map before any later fetch |
| `JwksNeed.FirstMapDecides` | internal/security/oidc.go:160-171 | over every interleaving, a lookup forces a refetch, and is reported missing, only after it was handed a map, within the ttl, that lacks its kid; one whose first map carries its kid never fetches or fails after that and ends with that key |
| `JwksNeed.FetchesAreNeeded` | internal/security/oidc.go:388-425 | every fetch, successful or not, was made because the cache held another URL, nothing, or keys as old as the ttl, or because they were as old as minRefresh and the first map of that lookup lacked its kid |
| `JwksNeed.CachedKidIsFound` | internal/security/oidc.go:388-396 | from every state without a writer, a lookup for a kid in keys younger than the ttl finds it in four steps, without a fetch |
| `JwksProtocol.NoDeadlock` | internal/security/oidc.go:388-431 | while a lookup is unfinished, some lookup can take a step |
| `JwksProtocol.LookupsAreShort` | internal/security/oidc.go:160-171 | over every interleaving each lookup takes at most 16 steps of its own |
| `JwksProtocol.LookupsEnd` | internal/security/oidc.go:388-431 | m lookups take at most 16 m steps between them, and until all have ended one of them can take a step, so any finite set of lookups terminates |
| `JwksProtocol.LockKept` | internal/security/oidc.go:389-395 | one writer or any number of readers, at every step |
| `Session.SessionCache.constructor` | internal/security/session.go:55-75 | non-positive settings get defaults, so the configuration in use is always valid |
| `Session.SessionCache.Get` | internal/security/session.go:80-107 | a hit needs an entry neither past its expiry nor idle longer than the window, and slides the window; a dead entry is removed |
| `Session.SessionCache.Put` | internal/security/session.go:110-125 | stores the entry, evicting first exactly when the map is full |
| `Session.SessionCache.EvictOldest` | internal/security/session.go:186-200 | for every map order an entry with the smallest last-access time goes, given that no key is empty |
| `Session.SessionCache.Delete` | internal/security/session.go:128-132 | removes that key only |
| `Session.SessionCache.Cleanup` | internal/security/session.go:162-178 | for every map order exactly the entries past their expiry or idle longer than the window go |
| `Session.CapacityHolds` | internal/security/session.go:115-117 | the size bound holds after every operation of every run |
| `Session.TimestampIsLastUse` | internal/security/session.go:104-122 | an entry's last-access time is the time of the last successful Get or Put of its key in the run |
| `Session.EvictionIsLeastRecentlyUsed` | internal/security/session.go:190-199 | the entry a Put evicts was last used no later than any other; with distinct clock readings its last use comes first in the run |
| `Session.GetAnswersHistory` | internal/security/session.go:80-107 | a Get never answers more than the key's own history of Puts, Gets and Deletes grants; while no Put has found the map full, and with a clock that does not go back, it answers exactly that |
| `Session.FewKeysNeverEvict` | internal/security/session.go:115-117 | no Put of a run finds the map full when fewer than MaxEntries keys are in use |
| `Session.CleanupIsUnobservable` | internal/security/session.go:162-178 | when no Put of a run finds the map full, cleanups inserted anywhere change no answer of any Get |
| `Session.UnobservableExactly` | internal/security/session.go:110-178 | if the keys are fewer than MaxEntries, or MaxEntries is 1, every run over them answers as any run of the same calls without cleanups does; otherwise, and only then, some run gives an answer that no run of the same calls without cleanups can give, however ties in age are broken |
| `Auth.AdmissionIsJustified` | internal/security/middleware.go:77-109 | an admitted request was validated itself, or it hit the cache no later than exp, after a validation in the same run with the very claims it carries, through accesses never further apart than the inactivity window |
| `Auth.RefusalIsJustified` | internal/security/middleware.go:86-109 | a request is refused only for an empty token or after the validator has refused its token; one that validates or hits the cache ends admitted, and with a cache its claims are stored first |
| `Auth.AloneGetsItsDue` | internal/security/middleware.go:76-109 | from every state, a request that runs on its own ends with the claims of the live session, without validation, or else with the verdict of the validator |
| `Auth.CacheIsSessionRun` | internal/security/middleware.go:77-109 | over every interleaving of requests the cache goes through one run of session cache operations in clock order, so the results on such runs hold for it |
| `Auth.HitsExactlyWhileAlive` | internal/security/middleware.go:77-83 | while no store has found the cache full, a lookup hits exactly when the lookups and stores of that token have kept its session alive |
| `Auth.HitTracesBack` | internal/security/middleware.go:79-100 | every cache hit traces back, access by access, to a store and the validation before it |
| `Auth.CacheAgreesExceptAtExpiry` | internal/security/middleware.go:79-95 | for a validator that depends on time only through expiry, cached and uncached verdicts agree in every reachable state if and only if the clock does not read exactly the expiry of a live session |
| `Auth.CacheOutlivesValidator` | internal/security/middleware.go:79-95 | the exception is reached: every token stored within the inactivity window of its expiry is accepted from the cache at the very instant of expiry, where the validator refuses it |
| `Auth.Handle` | internal/security/middleware.go:76-109 | one request, with or without a cache: cache first, else validate and store; nothing is stored for a refused token |
| `Sanitize.SanitizeDocument` | internal/resilience/sanitize.go:76-128 | the one-pass machine yields the lines that are neither noisy nor inside any stripped block, nested ones included, in order and unchanged, with trailing newlines tidied |
| `SanitizeLaws.BlockVanishes` | internal/resilience/sanitize.go:81-123 | after lines that no rule names, a line of n spaces and then a block key (or an annotation key whose value follows on the next lines), with the blank or deeper lines after it, can be taken out of a document without changing the result |
| `SanitizeLaws.NoisyLineVanishes` | internal/resilience/sanitize.go:110-120 | the same for an annotation with its value in one line, which goes alone |
| `SanitizeLaws.QuietDocumentStays` | internal/resilience/sanitize.go:122-128 | a document that no rule names is only tidied at its end |
| `SanitizeLaws.BlockIsDropped` | internal/resilience/sanitize.go:96-108 | whatever comes before, such a block at the end of the lines adds nothing |
| `SanitizeLaws.ShapeOfLine` | internal/resilience/sanitize.go:84-115 | how a line reads, n spaces and then a text with other white space around it, decides everything the pass looks at: indent n, and which prefix and last character the text has |
| `SanitizeLaws.CountsSpaces` | internal/resilience/sanitize.go:148-155 | leading spaces are counted, no other white space |
| `TrimLaws.TrimAround` | internal/resilience/sanitize.go:85 | trimming takes away the white space around a text, all of it and nothing else |
| `Sanitize.NextLine` | internal/resilience/sanitize.go:81-120 | the outermost open block alone decides for each line whether some open block contains it |
| `Sanitize.VisitLine` | internal/resilience/sanitize.go:84-125 | the branches for one line |
| `Sanitize.KeptAreHarmless` | internal/resilience/sanitize.go:105-121 | kept lines occur in the input, and none starts a stripped block or noisy annotation |
| `Sanitize.SanitizeDocumentIsIdempotent` | internal/resilience/sanitize.go:76-128 | sanitizing a sanitized document changes nothing |
| `Manifest.SplitYamlDocuments` | internal/resilience/sanitize.go:54-71 | the documents are the runs of lines between separator lines; a last empty run is none |
| `ManifestLaws.FirstDocument` | internal/resilience/sanitize.go:58-66 | the lines before the first separator line are the first document, and those after it are split likewise |
| `ManifestLaws.OnlyDocument` | internal/resilience/sanitize.go:67-70 | lines without a separator are one document, no lines none |
| `ManifestLaws.DocumentCount` | internal/resilience/sanitize.go:54-71 | one document per separator line, and one more unless the last line is one |
| `ManifestLaws.SeparatorLines` | internal/resilience/sanitize.go:59 | a separator line is three dashes with white space around |
| `Manifest.SanitizeManifest` | internal/resilience/sanitize.go:25-51 | each document is sanitized independently and put back between separators; blank ones stay |
| `ManifestLaws.ManifestReadBack` | internal/resilience/sanitize.go:25-51 | split again, the result is the sanitized documents one for one in order, and no line of it starts anything a rule names |
| `ManifestLaws.TextIsNoSeparator` | internal/resilience/sanitize.go:38-42 | a document never trims to the separator, so that branch is dead |
| `ManifestTwice.IdempotentExactly` | internal/resilience/sanitize.go:25-51 | sanitizing a manifest twice is sanitizing it once if and only if its last sanitized document is not blank and every one that is not blank begins and ends with a non-space, or its only document is empty |
| `ManifestTwice.IndentedRemainder` | internal/resilience/sanitize.go:36-51 | whatever the rules, a dropped first line leaves an indented second one, which the second pass trims |
| `ManifestTwice.GoRulesLeaveRemainder` | internal/resilience/sanitize.go:11-15 | this happens with the rules in use |
| `ManifestTwice.BlankManifestGrows` | internal/resilience/sanitize.go:38-41 | n newlines come out as n + 1 |
| `ManifestLaws.GoRulesSpareSeparators` | internal/resilience/sanitize.go:11-15 | the rules in use name no separator line |
| `StripFields.StripNoisyFields` | internal/resilience/sanitize.go:179-208 | for every map order the object ends up holding the stripped tree at the same heap locations; terminates |
| `StripFields.TrimMetadataInPlace` | internal/resilience/sanitize.go:181-193 | managedFields, noisy annotations and an annotations map left empty are deleted from the metadata |
| `StripFields.TrimThenStripKid` | internal/resilience/sanitize.go:180-199 | trimming first and then treating every child alike gives the role-based meaning |
| `StripLaws.StripRemovesNoise` | internal/resilience/sanitize.go:179-208 | a path disappears exactly when, from the metadata of an object reached through objects and lists of objects, it goes on to managedFields, to a noisy annotation, or into annotations that are all noisy; every other path keeps what it has |
| `StripLaws.StripPathwise` | internal/resilience/sanitize.go:179-208 | the same by what an object is to the object that holds it |
| `StripLaws.StripCleans` | internal/resilience/sanitize.go:178-208 | no object reachable through objects and lists of objects keeps noisy metadata; stripping changes nothing if and only if the object is clean already; stripping twice is stripping once |
| `Values.MergeInlineValues` | internal/helmengine/values.go:20-34 | the base map is updated in place to the merge, for every map order, a nil base counting as empty and a nil inline adding nothing; no node of a disjoint inline value is written |
| `Values.MergeKeyInto` | internal/helmengine/values.go:24-32 | one key: recurse when both sides are maps, else replace |
| `MergeLaws.PathMeaning` | internal/helmengine/values.go:14-17 | the merge has at each path what inline has there; where inline has nothing, what base has, unless inline has a non-map at a proper prefix |
| `MergeLaws.MergeIsDetermined` | internal/helmengine/values.go:14-17 | the path meaning determines the merge |
| `MergeLaws.MergeIsIdempotent` | internal/helmengine/values.go:20-34 | merging the same layer again changes nothing |
| `MergeLaws.AssociativeIffLayered` | internal/helmengine/values.go:20-34 | grouping three layers either way agrees if and only if wherever the middle one hides a map of the first and the last has a map again, the last covers the first |
| `MergeLaws.HidingNothingIsLayered` | internal/helmengine/values.go:20-34 | in particular when the middle layer never puts a non-map where both others have maps |
| `MergeLaws.NotAssociative` | internal/helmengine/values.go:20-34 | in general it does not |
| `MergeLaws.MergeStaysSeparate` | internal/helmengine/values.go:19-34 | merging separate trees yields a separate tree, so more layers can follow in place |
| `Breaker.CircuitBreaker.Allow` | internal/resilience/circuitbreaker.go:71-90 | admits exactly when the trailing failures are below the threshold or the timeout has passed since the last one |
| `Breaker.CircuitBreaker.RecordSuccess` | internal/resilience/circuitbreaker.go:93-99 | keeps the invariant: closed exactly below the threshold |
| `Breaker.CircuitBreaker.RecordFailure` | internal/resilience/circuitbreaker.go:102-112 | the same for a failure, which restarts the wait |
| `Breaker.Replay` | internal/resilience/circuitbreaker.go:71-112 | over every run with a clock that does not go back, each answer is the stateless function of the reports before it |
| `Breaker.NoSingleProbe` | internal/resilience/circuitbreaker.go:84-86 | after the timeout every further call is admitted until one reports |
| `Dispatch.HelmClient.CallTool` | python/src/helm_mcp/tools.py:456-492 | a state-changing tool is sent at most once and the error tells whether it was; any tool is sent at most (max_reconnects + 1) times the tenacity attempts; the last request decides how the call ends, a timeout ends it, and only lost connections lead to further rounds; an open breaker ends it unsent; the sleeps are exactly the backoffs of the rounds begun, but for a client connected at the start; terminates |
| `Dispatch.HelmClient.CallToolInner` | python/src/helm_mcp/tools.py:380-454 | the reconnect loop, with measure max_reconnects + 1 - attempts; it gives up exactly when its rounds are used up |
| `Dispatch.HelmClient.RunRound` | python/src/helm_mcp/tools.py:391-450 | one round; only a lost connection of a read-only tool, as the last outcome, or a failed reconnect leads to another; it sleeps if and only if the client is not connected |
| `Dispatch.HelmClient.ExecuteToolCall` | python/src/helm_mcp/tools.py:355-378 | tenacity repeats a read-only tool after OSErrors only, timeouts included, and never a state-changing one |
| `Dispatch.HelmClient.RawCall` | python/src/helm_mcp/tools.py:324-335 | one request, or none without a client |
| `Dispatch.HelmClient.Reconnect` | python/src/helm_mcp/tools.py:304-320 | sleeps min(2^attempt, 30) |
| `Dispatch.OnRequest` | python/src/helm_mcp/resilience.py:436-442 | the proxy forwards a call of a state-changing tool exactly once |
| `Dispatch.SleepBudgetClosedForm` | python/src/helm_mcp/tools.py:311-318 | the reconnects of one call sleep at most 31 + 30 (n - 4) seconds for n = max_reconnects of at least 4 |
| `Install.Download` | python/src/helm_mcp/download.py:126-142 | succeeds exactly when all chunks fit the cap; the file never exceeds it |
| `Install.VerifyChecksum` | python/src/helm_mcp/download.py:96-110 | feeding the file piece by piece compares the digest of the whole |
| `Install.Directory.EnsureBinary` | python/src/helm_mcp/download.py:145-214 | a path is returned if and only if the installed file matches, or no fault strikes and the download fits the cap and matches; a temporary file, within the cap, is left only when its removal failed or the run was interrupted; a good target is not touched |
| `Install.Directory.DownloadAndInstall` | python/src/helm_mcp/download.py:192-209 | with a fault at any step the target is as before or holds the verified bytes, exactly when the move was reached |
| `Install.InstallIsSafe` | python/src/helm_mcp/download.py:165-214 | for any number of concurrent runs, failing or killed anywhere: the target holds its initial or matching bytes, matching ones once any run returned it; no temporary file exceeds the cap; a raising run leaves one only if its removal failed |
| `Install.GoodTargetIsReturned` | python/src/helm_mcp/download.py:176-179 | an undisturbed run returns a matching executable target and touches nothing |
| `Install.GoodDownloadIsReturned` | python/src/helm_mcp/download.py:181-209 | an undisturbed run that finds no such target installs a download that fits and matches, in whatever pieces it arrives, and returns |
| `Install.GoodStaysGood` | python/src/helm_mcp/download.py:176-205 | a target with matching bytes keeps matching through every further step of every run |
| `Install.AnyStepMayFail` | python/src/helm_mcp/download.py:165-214 | the runs considered may be killed at every step, and may fail at every one, the clean-up included |
| `Install.FailureIsCleanedUp` | python/src/helm_mcp/download.py:210-214 | from every step that has a temporary file, failing and cleaning up removes it and leaves the target alone |
| `Paths.RejectSymlinkedParents` | internal/security/validation.go:298-309 | accepts exactly when no ancestor is a symlink other than an alias, and otherwise names the deepest one |
| `Paths.ValidatePath` | internal/security/validation.go:260-294 | refuses exactly the texts with ".."; otherwise the verdict, with its reason, is that of the checks on the names the text means; a path written out plainly, absolute or relative, means its own names |
| `PathText.WrittenIsClean` | internal/security/validation.go:270-275 | an absolute path written out plainly is cleaned to its own names |
| `PathText.RelativeIsClean` | internal/security/validation.go:270-275 | a relative one to these names below the working directory |
| `PathText.CleanIgnores` | internal/security/validation.go:275 | "//", "/./" and a slash at the end change nothing |
| `PathText.RootIsClean` | internal/security/validation.go:275 | "/" means the root |
| `PathText.DotsOccur` | internal/security/validation.go:264 | the ".." test finds ".." anywhere in the text |
| `PathText.CleanIsPlain` | internal/security/validation.go:264-275 | a path that passes the ".." test is cleaned to one without ".." |
| `Paths.AcceptedMeansIdentity` | internal/security/validation.go:257-309 | with no alias a symlink, an accepted path has no symlink at any prefix and resolves to its own cleaned form; if it does not exist, its first n names resolve to themselves and with one more to nothing |
| `Paths.IdentityIffNoAliasLink` | internal/security/validation.go:305-315 | an accepted existing path resolves to itself if and only if no ancestor, aliases included, is a symlink |
| `Paths.IdentityIsAccepted` | internal/security/validation.go:260-294 | a path that resolves to itself is accepted |
| `Paths.AliasRedirects` | internal/security/validation.go:311-317 | with /tmp a symlink, an accepted path resolves elsewhere |
| `Retry.BackoffDelay` | internal/resilience/retry.go:76-95 | for all 64-bit delays: where nothing overflows, the early exit gives min(base·2^attempt, max), and jitter adds at most half of it up to max |
| `Retry.OverflowsExactly` | internal/resilience/retry.go:77-84 | for all 64-bit delays, negative ones included, some doubling overflows if and only if for some i < attempt the loop goes on after i doublings and base·2^i is outside [-2^62, 2^62) |
| `Retry.FitsExactly` | internal/resilience/retry.go:76-95 | for delays that are not negative, nothing overflows if and only if attempt is 0, or base < 2^62 and no i with 0 < i < attempt has 2^62 <= base·2^i <= max; and one and a half times the delay is below 2^63 |
| `Retry.JitterOverflowsExactly` | internal/resilience/retry.go:86-89 | some draw makes the addition of jitter overflow if and only if one and a half times the delay is at least 2^63 |
| `Retry.SomeAttemptPanics` | internal/resilience/retry.go:76-88 | for all 64-bit delays, the delay of some attempt asks the generator for an empty range if and only if the base is negative, the max is below -1, or some doubling can overflow |
| `Retry.PromisedExactly` | internal/resilience/retry.go:74-95 | for delays that are not negative, every attempt and draw gets min(max, base·2^attempt + jitter) if and only if nothing overflows at any attempt |
| `Retry.PromisedByChance` | internal/resilience/retry.go:76-95 | at a single attempt an overflowed delay may still meet it |
| `Retry.SmallDelaysFit` | internal/resilience/retry.go:74-95 | with base and max below 2^62 nothing overflows at any attempt |
| `Retry.OverflowWitnesses` | internal/resilience/retry.go:76-95 | a base, a max and a jitter that are too large, through the loop |
| `Retry.Do` | internal/resilience/retry.go:32-72 | calls exactly up to the first outcome that does not lead to a retry, at most max(1, MaxAttempts); the result is that outcome unless a delay panics; where none overflows there is no panic and the waits sum to at most (calls - 1)·MaxDelay |
| `Budget.TruncateResponse` | internal/resilience/budget.go:13-40 | a response over budget is cut to a prefix that ends at the last newline of the window, or at the cutoff 150 bytes below the budget, followed by a notice whose first number denotes the size of the response and whose second that of the part shown |
| `Budget.BudgetHolds` | internal/resilience/budget.go:18-39 | for responses under 10^16 bytes the result keeps to the budget if and only if the budget has room for the notice alone, as every budget of 150 bytes has |
| `Budget.ShownIsMost` | internal/resilience/budget.go:25-32 | at least cutoff - 198 bytes are shown, ending in a newline whenever the window has one |
| `Budget.DecimalDenotes` | internal/resilience/budget.go:34-38 | the sizes in the notice denote the numbers they stand for |

## Left out

- Install.Run: the concurrent form of `ensure_binary` is a state machine on values; `Install.Directory` has the same steps as a method, undisturbed by other runs.
- JwksProtocol.Apply: the checks under a lock are one step each, since the lock excludes writers; Go's preference for waiting writers only removes interleavings.
- The JWT signature, issuer, audience, azp, scope and role checks, and the discovery cache: each is a straight-line test around the key lookup.
- Static-token mode, header parsing, audit logging and HTTP responses of the middleware.
- JSON and YAML encoding around the stripper and the merge, and `ApplySetValues`, which rests on Helm's own parser.
- The other validators, credential scrubbing and the address-range checks.
- The Helm engines, tool handlers, command line, release scripts and process hardening.
- The internals of the Python `circuitbreaker` and `tenacity` libraries beyond what their callers rely on, and the fairness of the semaphore.
- Symlink targets with "." or empty names, and races between the path check and the later use of the path.
