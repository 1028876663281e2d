# Verified model of the `zr` command line

`zr` is a command-line client for a billing service. This project models the parts of it whose
correctness cannot be seen by reading one function: the retry protocol of a request, the refresh of
OAuth tokens by concurrent callers, the printed next-page command, the redaction of logged bodies,
the paging loops, the replacement of configuration files, and four string passes (the read-only
gate, CSV cells, alias expansion, decimal conversion). Each is stated against a reference that is
defined independently of the code's loops, and proved for all inputs, all runs, or all reachable
states.

How the parts fit together:

- `RetryPolicy` describes one `Client.Do` as a decision taken from its history: `NextStep` maps the
  trace of checks, sleeps, sends and refreshes so far to what the protocol does next, without loop
  variables. `RetryLaws` proves the laws of all traces. `RetryClient` is the imperative client (a
  request whose body reader every send consumes, a shared budget, two nested loops, an arbitrary
  server, network, jitter and cancellation); its methods are proved to produce exactly such traces,
  so every law holds of the code's own loops. `RetryOutcomes` adds the other half: the exact gap
  between two sends, when a call must go on, and its verdict as a function of the last outcome. The
  server keeps the effects it applied and the keys it has seen.
- `TokenRefresh` is a transition system of any number of callers with program counters, a lock map,
  mutex owners, a cache and a clock; `TokenGrants` says which answers its callers get.
- `ShellWords` is the quoting and a reader for sections 2.2 (Quoting) and 2.3 (Token Recognition) of
  the Shell Command Language volume of POSIX; `ListHint` adds the hint printer, the flag parser and
  the query assembly; `HintLimits` says exactly which calls a hint gives back.
- `Mask` has JSON trees as values for the reference and as objects in memory for the code, which
  overwrites them in place.
- `Paging` and `Zoql` relate the two paging loops to the plain "every page in order".
- `AtomicFile` is one process replacing files, with every intermediate view of the directory;
  `ReplaceProtocol` is any number of processes doing so, interleaved at will, with inodes, partial
  writes and syncs; every reachable state is a possible crash.
- `ReadOnlyGate`, `CsvCells`, `AliasExpansion` and `GoInts` are the string passes. `Ascii` and
  `Wrappers` hold shared definitions.

## Where the code and its documentation differ

The code is modelled as it is; each difference is a lemma.

- `internal/api/client.go:336-349` and `internal/api/retry.go:32-40` promise that resends of POST
  and PATCH are deduplicated. Custom headers are applied after the key, so one that blanks
  `Idempotency-Key` breaks the promise. `RetryLaws.AtMostOneEffectExactly` gives the exact condition,
  and `RetryLaws.SafeToRetryIsKeyedExactly` the one under which SafeToRetry is announced without a key.
- `internal/api/retry.go:247-255` says oversized Retry-After values clamp to a minute. That holds up
  to the int64 range exactly; a larger number does not convert, and the client falls back to ordinary
  backoff (`RetryLaws.RetryAfterNumbers`).
- `printHint` does not receive the values of Bool flags and dereferences nil when the Spec has one
  (`ListHint.PrintHint` states when exactly), as `zr order list` does
  (`pkg/cmd/order/list/list.go:36` and `:64`, `HintLimits.OrderListCrashes`).
- A printed hint does not give the call back when a positional argument starts with a dash, since the
  printer emits no `--` (`HintLimits.DashLedCallsAreLost`), or when an argument or value contains a
  control or format character, which is printed as a space; these are the only cases
  (`HintLimits.HintRestoresExactly`). The replay is not accepted when a required flag was given its
  default value, since defaults are not printed (`ListHint.ReplayAccepted`,
  `HintLimits.EmptyRequiredIsLost`).
- `internal/config/file_config.go:243-247` promises complete files to every reader. The deferred
  removal after a successful rename makes that depend on temporary names: `os.CreateTemp` avoids names
  in use, not names whose removal is pending. `ReplaceProtocol.HandingOutIsSafeExactly` shows that
  avoiding those too is the exact condition.

## Model

| member | source | states |
|---|---|---|
| `RetryLaws.SendsAreBounded` | internal/api/retry.go:116-140 | In every run the inner and outer loop together send at most maxRetries+1 requests, and a send or a backoff is due only while budget is left |
| `RetryLaws.LengthBySends` | internal/api/retry.go:109-233 | The number of events of a run is at most three per send, up to a slack fixed by the step due |
| `RetryLaws.RunsAreBounded` | internal/api/client.go:378-431 | Against every environment the nested loops end: no run has more than thirteen events |
| `RetryLaws.VerdictIsOfLastSend` | internal/api/retry.go:109-233 | A finished call was cancelled, could not refresh, or reports the outcome of its very last send; a delivered reply is a readable success; 429, and a transport error or 5xx of a method that is retried on it, are reported only after all four sends |
| `RetryLaws.ResendsHaveReasons` | internal/api/retry.go:142-231 | Every send after the first was preceded by 429, by 401 with a token source, by a failure of GET, HEAD, OPTIONS or DELETE, or by a readable success=false answer with a transient code on a method other than PUT, never by a refused redirect |
| `RetryLaws.OnlyAuthorizationChanges` | internal/api/retry.go:188-209 | At any point of any run all headers but Authorization are the ones the request was assembled with, the key included |
| `RetryLaws.ResendFidelity` | internal/api/retry.go:91-140 | Every send carries the call's method, URL, whole body, key and headers; two consecutive sends differ only in Authorization and only after a 401 |
| `RetryLaws.SafeToRetryNamesTheKey` | internal/api/retry.go:150-160 | A failure marked safe to retry is of a POST or PATCH and names the key that the last send carried |
| `RetryLaws.SafeToRetryIsKeyedExactly` | internal/api/retry.go:218-227 | No run promises a safe retry without a key if and only if the call is not a POST or PATCH whose key was blanked |
| `RetryLaws.WritesResendOnlyRejected` | internal/api/retry.go:154-186 | For PUT, and for POST and PATCH without the envelope check, every send but the last was answered 429 or 401 |
| `RetryLaws.AppliedAtMostLast` | internal/api/retry.go:167-210 | If all earlier sends were rejected, the server applied at most one effect, and none if the last was rejected too |
| `RetryLaws.KeyDeduplicates` | internal/api/client.go:336-344 | With a key, a server that deduplicates applies nothing or exactly the call's one effect, over all resends |
| `RetryLaws.AtMostOneEffect` | internal/api/retry.go:88-233 | At most one effect per call, on every run against every conforming server, for every call that cannot be applied twice |
| `RetryLaws.PutAppliesAtMostOnce` | internal/api/retry.go:22-30 | A PUT, which carries no key, is applied at most once: every send but the last was answered 429 or 401 |
| `RetryLaws.TwiceAppliedRuns` | internal/api/client.go:346-349 | For each call that can be applied twice, a run in which the server applies it twice |
| `RetryLaws.AtMostOneEffectExactly` | internal/api/retry.go:22-43 | All runs apply a call at most once if and only if it carries a key or is neither idempotent nor resent on success=false |
| `RetryLaws.ResendsRepeat` | internal/api/retry.go:91-140 | Whatever processing means, the server's state after any run is that of the one call repeated, as often as it acted on it |
| `RetryLaws.RepeatedIdempotentRequests` | internal/api/retry.go:22-30 | Corollary of send fidelity: if processing the request twice is processing it once (section 9.2.2 of RFC 9110), all resends leave the state of none or one |
| `RetryLaws.RetryAfterIsCapped` | internal/api/retry.go:171-182 | A Retry-After (section 10.2.3 of RFC 9110) is honoured exactly when it reads as an int64 number or a date; the wait is then what it asks for cut to 0 to 60 s, the int64 conversion never wrapping |
| `RetryLaws.RetryAfterNumbers` | internal/api/retry.go:247-268 | A header naming n seconds is honoured if and only if n fits int64, by waiting min(n, 60) seconds; larger numbers fall back to backoff |
| `RetryLaws.TransientCodes` | internal/api/retry.go:52-68 | With truncating remainder, a code is transient exactly when it is a non-negative int64 ending in 50, 61, 70 or 99 |
| `RetryLaws.OneSleepPerSend` | internal/api/retry.go:125-138 | A sleep is due only after a send not yet followed by one; its backoff attempt never exceeds the sends made |
| `RetryLaws.SleepStep` | internal/api/retry.go:45-50 | Each sleep is at most a minute, and a backoff is less than the amount by which the 1.5/4.5/10.5 s cap grows with its slot |
| `RetryLaws.SleepBySends` | internal/api/client.go:379-386 | Total sleep is at most a minute per slot between sends; without Retry-After strictly under the backoff cap, however the two backoff counters mix |
| `RetryLaws.WaitingIsBounded` | internal/api/retry.go:15-20 | Any call sleeps at most 240 s in all, strictly under 10.5 s without Retry-After, and the sum fits int64 nanoseconds |
| `RetryLaws.OnlyWaitsAfterLast` | internal/api/retry.go:116-123 | In every run, a sleep after the last permitted send can only be a wait the server asked for, never a backoff |
| `RetryLaws.RefreshesAreBounded` | internal/api/retry.go:188-210 | At most one refresh per inner loop, only right after a 401; twice the refreshes is at most sends plus one, so at most two per call |
| `RetryLaws.CancellationWins` | internal/api/retry.go:110-114 | Once cancellation is noticed by a check, a sleep or a failed send, nothing more is sent and only the context error can follow, for every method |
| `RetryLaws.CancelledExactly` | internal/api/retry.go:154-181 | A finished call reports cancellation if and only if it noticed it |
| `RetryOutcomes.FirstSend` | internal/api/retry.go:109-141 | The first send follows one context check and is the call as assembled, an empty method going out as GET |
| `RetryOutcomes.SendsAreSpaced` | internal/api/retry.go:109-231 | Every later send follows the one before over exactly one of: the wait a 429 asks for, cut to 0 to 60 s; a refresh, whose token it then carries; or a backoff in the range of the loop that goes round; and over one context check |
| `RetryOutcomes.BackoffValues` | internal/api/retry.go:45-50 | The backoffs are 1 to 1.5, 2 to 3 and 4 to 6 seconds |
| `RetryOutcomes.NeverGivesUpEarly` | internal/api/retry.go:142-231 | Unless cancelled or left without a token, a call stops only at an outcome that does not ask for another send or after all four: a first 401 is answered by a refresh, a retriable outcome by a resend |
| `RetryOutcomes.NeverSendsUnasked` | internal/api/retry.go:142-231 | And it sends again only after such an outcome, not after a 401 that a refresh did not cure |
| `RetryOutcomes.VerdictExactly` | internal/api/client.go:391-430 | In every run the verdict is one function of the last outcome: delivered whenever it is a success, SafeToRetry exactly for a POST or PATCH that failed in transport or with 5xx |
| `RetryOutcomes.RefreshFailedExactly` | internal/api/retry.go:197-201 | A call is left without a token exactly when its last refresh failed |
| `RetryClient.World.Transmit` | internal/api/retry.go:140-141 | A send leaves the body reader anywhere, records what was on the wire and lets the server act on it |
| `RetryClient.BackoffDuration` | internal/api/retry.go:45-50 | For every draw the backoff of attempt n lies in [2^(n-1), 1.5 * 2^(n-1)) seconds |
| `RetryClient.Prepare` | internal/api/retry.go:109-138 | The loop top either ends with the verdict the history calls for, or leaves a request whose wire image is the original call under the current token |
| `RetryClient.Settle` | internal/api/retry.go:142-232 | What the switch does with an outcome is the step the history calls for, and the loop variables keep agreeing with the history |
| `RetryClient.DoWithRetry` | internal/api/retry.go:88-233 | The inner loop only extends the run by legal steps, ends, spends budget before it answers, and returns the verdict due or the reply the outer loop has to judge |
| `RetryClient.AssembledExactly` | internal/api/client.go:316-349 | Header by header: the caller's own value, else the token, agent, version, content type or key the client sets, else none |
| `RetryClient.AssembledKey` | internal/api/client.go:336-349 | Exactly POST and PATCH carry a non-blank key unless a custom header sets it |
| `RetryClient.Exchange` | internal/api/client.go:361-431 | The outer loop ends and produces a complete run whose verdict is the one NextStep gives |
| `RetryClient.NewHeaders` | internal/api/client.go:316-349 | The headers of a call are these for a fresh, non-blank key |
| `RetryClient.Do` | internal/api/client.go:302-431 | It fails for want of a token exactly when the token source does; otherwise the call is a run of the protocol that never gives up early, ends with the verdict of its last outcome, sends at most four times and, unless it can be applied twice, adds at most one effect |
| `TokenRefresh.StepKeepsLocks` | internal/auth/oauth.go:91-98 | Every step keeps: one mutex per environment, distinct between environments, and owners are exactly the callers between lock and unlock |
| `TokenRefresh.StepKeepsFetching` | internal/auth/oauth.go:70-78 | Every step keeps: a TokenContext caller past its re-check works on an invalid cache |
| `TokenRefresh.StepKeepsPosts` | internal/auth/oauth.go:234-246 | Every step keeps the account of POSTs against failures, lapses, removals, the cached token and the POST under way |
| `TokenRefresh.Reachable` | internal/auth/oauth.go:58-98 | These invariants hold in every state any interleaving of any number of callers reaches, from any saved cache |
| `TokenRefresh.OneMutexPerEnv` | internal/auth/oauth.go:91-98 | Two callers at the lock have the same mutex if and only if they have the same environment |
| `TokenRefresh.SingleFlight` | internal/auth/oauth.go:81-89 | At most one OAuth POST per environment is in flight, forced refreshes included |
| `TokenRefresh.PostsStartInvalid` | internal/auth/oauth.go:73-78 | When a TokenContext caller whose re-check could read the cache starts a POST, the cached token is invalid at that moment |
| `TokenRefresh.PostsAreBounded` | internal/auth/oauth.go:60-79 | TokenContext POSTs of an environment number at most one plus failed refreshes, tokens lapsed under the 60 s buffer or removed, and unreadable re-checks |
| `TokenRefresh.AnswersAreOwnTokens` | internal/auth/oauth.go:60-79 | Whatever the interleaving, the token a caller gets was saved earlier or fetched for that caller's own environment |
| `TokenGrants.AnswersExactly` | internal/auth/oauth.go:60-89 | A step answers its caller if and only if it finds a usable token in a cache it could read and may use, saves the caller's own, or fails; and it answers with that token |
| `TokenGrants.CacheChangesExactly` | internal/auth/oauth.go:234-243 | The cache changes only by storing a fetched token, whole and for its own environment, or by a removal |
| `TokenGrants.GrantsAreUsable` | internal/auth/oauth.go:60-79 | In every reachable state, a token granted is a non-blank cached one with more than 60 s left, to an unforced caller, or the one the caller's own POST was answered with |
| `TokenGrants.ForcedGetsItsOwn` | internal/auth/oauth.go:81-89 | A forced caller only ever gets the token of its own POST |
| `TokenGrants.PostsAndFailuresAreCounted` | internal/auth/oauth.go:60-79 | What bounds the POSTs counts failures and unreadable re-checks exactly when they happen |
| `TokenGrants.LossesAreCounted` | internal/config/config.go:54-60 | And lapses and removals exactly when a usable token is lost |
| `TokenGrants.FetchSucceeds` | internal/auth/oauth.go:70-79 | Without a usable token a caller can get a new one, which is then cached and the lock released |
| `TokenRefresh.NoDeadlock` | internal/auth/oauth.go:70-98 | While a caller has not returned, it or the holder of the lock it waits for can take a step |
| `TokenRefresh.MovesAreBounded` | internal/auth/oauth.go:60-98 | However callers interleave and whatever fails, no call takes more than eight steps |
| `TokenRefresh.EveryoneReturns` | internal/auth/oauth.go:60-98 | Callers can go on taking steps if and only if one of them has not returned; with the bound, all of them return |
| `ShellWords.ShellRoundTrip` | pkg/cmdutil/listcmd/listcmd.go:349-376 | The shell reads back any list of printed words as exactly those words with control characters turned into spaces, empty strings and quotes included |
| `ShellWords.LexPart` | pkg/cmdutil/listcmd/listcmd.go:358-376 | One quoted word reads back as its cleaned value whatever text follows |
| `ShellWords.BareExactly` | pkg/cmdutil/listcmd/listcmd.go:349-376 | A word without control characters stays unquoted if and only if it is a non-empty plain token |
| `ListHint.AppendPositionals` | pkg/cmdutil/listcmd/listcmd.go:321-324 | The loop emits each positional argument once, in order |
| `ListHint.AppendFlag` | pkg/cmdutil/listcmd/listcmd.go:329-342 | The switch and its inner loop emit nothing for a default and one pair per value of a repeatable flag, in order |
| `ListHint.AppendFlags` | pkg/cmdutil/listcmd/listcmd.go:325-343 | The loop fails exactly when the Spec has a Bool flag besides the next-page flag; otherwise it emits the non-default flags in order |
| `ListHint.PrintHint` | pkg/cmdutil/listcmd/listcmd.go:303-347 | Generic message, crash or command line, each under its exact condition, and the exact line |
| `ListHint.RequestOptions` | pkg/cmdutil/listcmd/listcmd.go:208-233 | The options appended for the flags, applied in order, give the query of the flag values |
| `ListHint.ParseFlagParts` | pkg/cmdutil/listcmd/listcmd.go:329-342 | What is printed for one flag parses back to its cleaned value; repeated flags keep their order, omitted ones their default |
| `ListHint.HintParses` | pkg/cmdutil/listcmd/listcmd.go:321-346 | The hint's words parse to the same arguments and flags with the next page replaced, marking exactly the printed flags as set |
| `ListHint.DashLedIsLost` | pkg/cmdutil/listcmd/listcmd.go:322-324 | With a positional argument that looks like a flag, no parse restores the positional arguments |
| `ListHint.HintReplaysExactly` | pkg/cmdutil/listcmd/listcmd.go:303-346 | The hint restores the arguments and flags, control characters turned into spaces, if and only if no such argument looks like a flag |
| `ListHint.HintLineTokenizes` | pkg/cmdutil/listcmd/listcmd.go:344-346 | The shell splits the printed line into the command path's words and the hint's words |
| `ListHint.ReplayAccepted` | pkg/cmdutil/listcmd/listcmd.go:163-190 | The replay passes the required-flag checks if and only if every required flag has a value the hint prints |
| `ListHint.OtherParametersStay` | pkg/cmdutil/listcmd/listcmd.go:208-233 | Replacing the next-page flag leaves every other query parameter as it was |
| `ListHint.OwnParameterExactly` | pkg/cmdutil/listcmd/listcmd.go:208-233 | A flag with a query name of its own is sent as its value, kind by kind: a number unless it is an OmitZero zero, a switch as true when on, a repeatable flag's values in order, a text unless empty; otherwise its name is absent |
| `ListHint.SharedName` | internal/api/request.go:25-39 | Flags sharing a query name: the last single value replaces all before it, repeatable values are added in order |
| `ListHint.RepeatedName` | internal/api/request.go:31-39 | A name without a single value has exactly the repeatable values; a name no flag sends under is not in the query |
| `ListHint.MissingRequired` | pkg/cmdutil/listcmd/listcmd.go:181-190 | The check names a required flag with a deprecated spelling and empty text if and only if there is one |
| `ListHint.HintReplay` | pkg/cmdutil/listcmd/listcmd.go:208-347 | From the printed line through shell and flag parser to the query: the original request with only the next-page parameter replaced |
| `HintLimits.HintRestoresExactly` | pkg/cmdutil/listcmd/listcmd.go:303-376 | The hint gives back the original arguments and flags with the next page replaced if and only if no argument, other flag value or new next-page value contains a control or format character and no argument looks like a flag |
| `HintLimits.LineRestoresExactly` | pkg/cmdutil/listcmd/listcmd.go:303-376 | The same for the printed line as the shell splits it |
| `HintLimits.DashLedCallsAreLost` | pkg/cmdutil/listcmd/listcmd.go:322-324 | Arguments that look like flags can be given behind a double dash, and the hint of that call does not restore them |
| `HintLimits.EmptyRequiredIsLost` | pkg/cmdutil/listcmd/listcmd.go:339-342 | A required text flag given as the empty string is accepted, and the replay of the hint is not |
| `HintLimits.OrderListCrashes` | pkg/cmd/order/list/list.go:31-64 | `zr order list` without flags is accepted and crashes on every answer whose next-page URL has a page parameter |
| `GoInts.ItoaRoundTrip` | pkg/cmdutil/listcmd/listcmd.go:331-332 | Every int64 survives printing and parsing |
| `GoInts.AtoiSigned` | internal/api/retry.go:58-62 | Digits parse alike with a plus sign, to the negative with a minus sign, as far as int64 goes; nothing else parses behind a sign |
| `Mask.NormalizeIdentifiesSpellings` | internal/api/mask.go:51-59 | Two keys normalize alike if and only if they differ only in case, underscores and hyphens; sensitivity does not depend on spelling |
| `Mask.MaskValue` | internal/api/mask.go:61-82 | For any unshared tree in memory, in any iteration order: it is overwritten in place, the same objects now show the reference masking |
| `Mask.MaskFields` | internal/api/mask.go:63-71 | The map loop masks every entry of an object in whatever order the keys come |
| `Mask.MaskItems` | internal/api/mask.go:72-76 | The slice loop masks every element of an array |
| `Mask.ShownTreeIsUnique` | internal/api/mask.go:41-44 | A value in memory shows one tree only |
| `Mask.Load` | internal/api/mask.go:41-44 | Every tree has such a form in memory, made of new objects |
| `Mask.MaskingHidesExactlySecrets` | internal/api/mask.go:61-82 | Two trees mask to the same tree if and only if they differ only in values under sensitive keys |
| `Mask.MaskingIsIdempotent` | internal/api/mask.go:61-82 | Masking twice is masking once |
| `Mask.OtherPathsStay` | internal/api/mask.go:61-82 | A path without a sensitive key exists after masking exactly when it did before, and leads to the same scalar |
| `Mask.SecretsAreRedacted` | internal/api/mask.go:64-67 | Nothing but the redaction mark can be reached through a sensitive key |
| `Mask.LogHidesSecrets` | internal/api/client.go:171-200 | Bodies that differ only in secrets are logged identically, truncated or not |
| `Mask.Log.LogBodyTo` | internal/api/client.go:174-200 | The writer gains exactly the redacted log of the body, and nothing below level 2 |
| `Mask.LogIsBounded` | internal/api/client.go:171-200 | Nothing of a multipart body is logged; of any other its first 4096 masked bytes, or all of them |
| `Paging.DoPaginated` | internal/api/pagination.go:13-84 | The first request is for the path, each later one for the page the answer before announced, at most a hundred, each with the whole body; data[i] is the `data` of page i, or its raw body when it has none; the outcome is decided by the last answer |
| `Paging.FetchPages` | internal/api/pagination.go:29-83 | The loop ends with the meaning of the chain after exactly the requests of its pages; "no data returned" is never reached |
| `Paging.MeaningIsReturned` | internal/api/pagination.go:46-83 | The meaning of a chain, spelled out over its requests and answers |
| `Paging.LastIsEnd` | internal/api/pagination.go:69-78 | A chain that ends within the limit is followed exactly to its end |
| `Paging.SuccessMeansWholeChain` | internal/api/pagination.go:63-83 | Success if and only if the chain ends with a usable page within a hundred pages; then one element per page, in order |
| `Paging.TruncationMeansMorePages` | internal/api/pagination.go:74-77 | Data with an error if and only if a hundred pages were fetched and the last announced another |
| `Paging.EndlessChainsAreCut` | internal/api/pagination.go:30-78 | A chain without end, a cycle in particular, is cut after a hundred pages |
| `Zoql.RunQuery` | pkg/cmd/query/query.go:69-157 | Each queryMore carries the locator of the answer before, which was not done, while the limit is not met; the last answer stops the loop and decides with the limit on rows, done and locator |
| `Zoql.NoFetchPastLimit` | pkg/cmd/query/query.go:82-85 | Every request but the last was answered with a further locator while the limit was not met |
| `Zoql.RecordsArePrefix` | pkg/cmd/query/query.go:98-106 | Whether or not the stream ends or fails later: a met limit gives the first `limit` records of every longer stretch of the stream, an unmet one means the stream ended and all of it is returned |
| `Zoql.WholeStreamOrLimit` | pkg/cmd/query/query.go:82-106 | Against a stream that ends, the records are its first min(limit, all), or all of it without a limit |
| `Zoql.DoneMeansWhole` | pkg/cmd/query/query.go:147-153 | For any stream, done is reported if and only if the server ended it there with done and nothing was cut off; the records are then the whole stream |
| `Zoql.LocatorResumes` | pkg/cmd/query/query.go:155-157 | For any stream a locator is reported if and only if the last answer has one and nothing was cut off; the records followed by any stretch behind it are then the stream |
| `Zoql.FailureReportsNothing` | pkg/cmd/query/query.go:90-97 | An error if and only if a request before the stop failed, and then no records |
| `AtomicFile.AtomicWriteFile` | internal/config/file_config.go:248-271 | It succeeds if and only if no operation fails; success replaces the file, synced and with its permissions, failure changes nothing, no temporary file and no handle is left; in between a reader sees the old complete file up to one moment and the new one from it |
| `AtomicFile.Save` | internal/config/file_config.go:203-219 | It succeeds if and only if everything encodes and no operation fails; after a failure the files before it are new and the rest old; at every crash point the directory shows some number of the three replaced, in order, never falling |
| `AtomicFile.ReplacedExactly` | internal/config/file_config.go:209-217 | Each file replaced has its own data, and the rest of the directory is as before |
| `ReplaceProtocol.StepKeepsInv` | internal/config/file_config.go:248-271 | As long as no name is handed out whose removal is pending, every step keeps: temporary files are their writers' own, live writers hold distinct names, proper names lie on complete synced files |
| `ReplaceProtocol.RunsKeepInv` | internal/config/file_config.go:248-271 | The invariant holds in every state any such interleaving reaches, reused names included |
| `ReplaceProtocol.TargetsAreComplete` | internal/config/file_config.go:243-247 | At every possible crash each file is as before or all the data of one of its writers, and synced |
| `ReplaceProtocol.TargetsChangeAtOnce` | internal/config/file_config.go:270-270 | A file changes only by a rename onto it, which installs all of that writer's data; it never disappears |
| `ReplaceProtocol.NoTempIsLostOrLeft` | internal/config/file_config.go:253-254 | A due rename never misses its temporary file, and once a writer has returned its own file lies under no temporary name |
| `ReplaceProtocol.ReturnsAreHonest` | internal/config/file_config.go:248-271 | A writer returns success if and only if it renamed its file |
| `ReplaceProtocol.PendingNameCorrupts` | internal/config/file_config.go:249-270 | From every state in which a pending name is handed out, steps that break the guard no further lead to a file holding nobody's complete data |
| `ReplaceProtocol.HandingOutIsSafeExactly` | internal/config/file_config.go:249-254 | In every reachable state, handing out a free name keeps all files complete whatever follows if and only if no removal of that name is pending |
| `ReplaceProtocol.ReusedNamesCorrupt` | internal/config/file_config.go:249-254 | Such a state is reached from an empty directory: a run that breaks the guard once and corrupts a file |
| `ReadOnlyGate.ExtractedIsNormal` | internal/api/client.go:519-535 | For any URL parser, an extracted path has no question mark, leading slash, upper case or http(s) prefix |
| `ReadOnlyGate.NormalIsFixed` | internal/api/client.go:509-535 | Normal paths are exactly the ones extraction leaves alone without parsing |
| `ReadOnlyGate.ExtractionIsIdempotent` | internal/api/client.go:509-518 | Extracting twice is extracting once, even with another parser the second time |
| `ReadOnlyGate.DataQueryIsNotDefault` | internal/api/client.go:570-575 | No Data Query write is allowed without the opt-in |
| `ReadOnlyGate.OptInAddsExactlyDataQuery` | internal/api/client.go:276-289 | In read-only mode the opt-in admits exactly the Data Query writes on top of the default, and the two sets are disjoint |
| `ReadOnlyGate.ReadOnlyAdmitsExactly` | internal/api/client.go:276-289 | Read-only mode lets through all reading methods, exactly the listed POSTs and, with the opt-in, DELETE of one Data Query job; without the mode everything passes |
| `ReadOnlyGate.UnparsedIsBlocked` | internal/api/client.go:513-527 | A write to an absolute URL that does not parse is never let through |
| `ReadOnlyGate.OneSegmentExactly` | internal/api/client.go:502-507 | The patterns match one non-empty segment without a slash between prefix and suffix, and nothing else |
| `ReadOnlyGate.CaseAndSlashesDoNotMatter` | internal/api/client.go:528-531 | Of a relative path extraction forgets letter case and leading slashes |
| `ReadOnlyGate.AbsoluteMeansItsPath` | internal/api/client.go:521-527 | Of an absolute URL it takes the parsed path |
| `ReadOnlyGate.QueryDoesNotMatter` | internal/api/client.go:528-530 | A relative path is judged alike with any query string |
| `CsvCells.ScanMatchesGrammar` | pkg/output/csv.go:78-88 | One left-to-right scan accepts exactly the strings of the regular expression |
| `CsvCells.SanitizeField` | pkg/output/csv.go:55-76 | The field gains a leading quote if and only if its first non-blank is =, @ or a sign not starting a decimal number |
| `CsvCells.RunesAreClean` | pkg/output/table.go:45-70 | Cleaning leaves no control or format character and, outside CSV, no newline |
| `CsvCells.RunesExactly` | pkg/output/table.go:45-70 | Cleaning drops control and format characters and keeps the others in order, with a space for each tab, carriage return, separator and newline not kept |
| `CsvCells.FormulaExactly` | pkg/output/csv.go:45-76 | A field counts as a formula if and only if behind blanks alone stands =, @ or a sign not starting a decimal number |
| `CsvCells.CellsAreNoFormulas` | pkg/output/csv.go:45-76 | No exported cell is one; it is the cleaned value with at most one leading quote |
| `CsvCells.CellIsIdempotent` | pkg/output/csv.go:35-76 | Sanitizing an exported cell again changes nothing |
| `CsvCells.PrintCsv` | pkg/output/csv.go:10-33 | Header and rows are written in order, every cell sanitized |
| `AliasExpansion.ExpandAlias` | cmd/zr/expand.go:48-99 | Exactly the command word is replaced, only by an alias that is no registered name; a malformed expansion leaves the line alone |
| `AliasExpansion.CommandWordExactly` | cmd/zr/expand.go:56-71 | The word looked at is the first behind the program name that is neither a flag nor the value of a flag taking one |
| `AliasExpansion.ExpansionExactly` | cmd/zr/expand.go:73-98 | It is replaced in place by the words of its expansion exactly when it is an alias that splits and neither help nor a registered name |
| `AliasExpansion.SamePlace` | cmd/zr/expand.go:56-68 | In lines agreeing up to their command word the search gets to the same place and goes on from there, for any value-taking flags |
| `AliasExpansion.FinalStays` | cmd/zr/expand.go:38-47 | If each usable alias expands to words whose command word is registered, no alias or an alias of itself, a second expansion of any line changes nothing |
| `AliasExpansion.NotFinalMoves` | cmd/zr/expand.go:73-98 | Any usable alias without such an expansion has a command line that a second expansion changes |
| `AliasExpansion.IdempotentExactly` | cmd/zr/expand.go:48-99 | Expanding twice is expanding once on all command lines if and only if the store satisfies that condition, for any flags and names |
| `AliasExpansion.ExpansionIsIdempotent` | cmd/zr/expand.go:38-47 | Corollary: it is when every expansion starts with a registered command |
| `AliasExpansion.OnlyCommandWordChanges` | cmd/zr/expand.go:93-98 | The words before and after the command word survive, and a registered name is never replaced |
| `AliasExpansion.ChainedAliasesExpandTwice` | cmd/zr/expand.go:75-83 | Corollary: a store with an alias of an alias on which it is not |

## Left out

- RetryClient.Do: starts after the URL is built and the host is checked; a body reader that fails is not modelled, nor are log lines. The transport itself (TLS, redirects it follows, retries inside `net/http`) is one arbitrary outcome per send.
- RetryClient.AssembledKey: header names are taken in canonical form with one value each, and a Content-Type cannot be present before assembly.
- RetryLaws.AtMostOneEffect: covers the resends of one `Do`. Each call makes a new key, so the suggestion at internal/api/errors.go:55-63 that a whole command can be re-run is not claimed. The server is assumed not to process what it answers with 429 or 401 and to deduplicate by key.
- RetryLaws.RetryAfterIsCapped: the HTTP-date reading of the header is an arbitrary value; its agreement with the clock is not modelled.
- TokenRefresh.PostsAreBounded: forced refreshes are serialized but not deduplicated, so their POSTs are not bounded; reading the cache and judging the token is one atomic step, as is the map's load-or-store. Credentials, the OAuth request body and log lines are left out.
- ListHint.HintReplay: needs cleaned flag values, a Spec without Bool flags (whose hint crashes) and no dash-led argument; the request path is the Spec's own function of the restored arguments and flag values and is not unfolded. Global flags such as `--env` are not printed by the code and are not part of the model.
- ListHint.HintParses: the parser covers `--name value`, `--name=value`, `--` and positional words; shorthands and non-decimal integers are outside. A deprecated spelling is a second name of its flag.
- ShellWords.ShellRoundTrip: control and format characters are an abstract predicate; text that would need expansion or operators is outside the reader and never printed unquoted.
- Mask.MaskValue: JSON decoding and encoding are arbitrary functions, and a decoded tree shares no object with itself, as decoding makes it.
- Mask.NormalizeIdentifiesSpellings: letter case is ASCII; Unicode characters that fold to ASCII letters are not modelled.
- Paging.DoPaginated: whether a body fits the envelope is part of the server's answer; JSON decoding and URL building are not modelled, and a body reader that fails is left out.
- Zoql.RunQuery: is stated for streams in which some request stops the loop; the code has no page limit and would otherwise not return. Exporting and rendering the rows are left out.
- AtomicFile.AtomicWriteFile: removing the temporary file is taken to succeed (the code ignores its error), and of permissions only whether they were set is modelled; serializing the three documents is a yes-or-no outcome.
- ReplaceProtocol.TargetsAreComplete: holds of runs in which no name is handed out while its removal is pending, which is the exact condition and which `os.CreateTemp` leaves to its random names; the directory is not synced, so a rename itself may be lost with the power, as the code's comment grants.
- ReadOnlyGate.OptInAddsExactlyDataQuery: letter case is ASCII, `url.Parse` an arbitrary function; that the extracted path equals the path sent is not claimed, since the two treat the scheme's case differently.
- CsvCells.PrintCsv: quoting and writing by `encoding/csv` are left out; blanks and digits are ASCII.
- AliasExpansion.ExpandAlias: splitting an expansion is an arbitrary function that may fail.
- The resource commands, detail views, tables, templates, pagers, keyring and shell completion: one-branch plumbing or library code.
