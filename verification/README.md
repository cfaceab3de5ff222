# Transit Hub verification

A Dafny model of the hard core of Transit Hub, an API gateway that meters requests to model
providers, with proofs of what the code is meant to guarantee.

- **The usage ledger and admission protocol.** `Ledger` holds what each operation of the usage
  manager makes of memory and database; `UsageManager` is the manager itself, a class whose loops
  and transactions are proved against it; `Protocol` interleaves requests, flushes, connects,
  bootstraps and crashes as a step system; `Windows`, `Conservation`, `Guarantees`, `Overshoot` and
  `LateConnect` prove invariants and theorems over all its runs; `Refinement` shows that every program
  of calls is a run of it; `FullLoad` reaches the quota bound exactly; `Admissions` and `Charges` say
  what an admission, a recorded request, an import and a status come to, in the key's own limits;
  `Locks` proves that the lock protocol cannot deadlock; `RateLimits`, `Calendar`, `Counters` and
  `Histories` supply limits, windows, saturating counters and sums; `Gateway` is the per-key
  concurrency counter.
- **The streaming readers.** `SseParser` and `TtsCollector` are the byte machines, proved equal to
  whole-input specifications for every cutting into chunks; `StreamReports` and `TtsReports` say what
  these specifications report, event by event and field by field.
- **Billing.** `Billing` is the tariff arithmetic and price validation; `Charging` writes each charge
  out in the prices as they are configured; `Tariffs` says exactly when the exact cost, before rounding
  and capping, grows with the request, what follows for charges, and when many requests cost as much
  as their sum.
- **Satellites.** `Template`, `TemplatePrint` and `TemplateSpelling` (quota templates: the parser, the
  round trip, and which texts parse to what), `Telemetry` (queue and batch writer), `Monitor`,
  `Schedules`, `StaleRuns` and `QuotaIdentity` (quota results against configuration changes, the sweep
  schedule, and the configuration fingerprint), `Breaker` (circuit breakers and weighted choice),
  `Rebuild` (bucket recomputation from the request log).

Verify with `dafny verify dfyconfig.toml`.

## Reading the model

- Instants and durations are integer nanoseconds; a time zone is a fixed offset. The text form of
  times in the database is taken to be lossless.
- The usage database is three maps; a transaction is atomic, and a commit that returns an error was
  not applied. How many database calls succeed (`calls`), whether the database can be opened
  (`readable`), the clock, random draws, the hash under the fingerprints, JSON decoding and number or
  zone parsing are parameters.
- Costs are 64-bit: additions saturate or wrap where the code's do. Requests, tokens and lengths are
  mathematical integers.
- `Protocol.History` and the `seen`, `events`, `state` and `history` fields of classes are
  bookkeeping that no operation reads.
- The quota bound that the design suggests is not true of every run. Admission reads the database
  first only for keys with a 5h or 7d limit, while the server goes on in memory when its database is
  unreadable at start. `LateConnect.WindowBoundIffFirstUseLimit` and
  `LateConnect.TotalBoundIffFirstUseLimit` say exactly for which keys this matters, for window quotas
  and for lifetime quotas.
- A comment in the code calls token tiers a replacement of the whole tariff, so cost can fall where a
  tier begins. `Tariffs.NeverFallsIffTiersRise` says for exactly which prices the cost before rounding
  and capping never does; then no charge falls either (`Tariffs.CostMonotone`). For the other prices
  some charge falls if prices are whole micro-Credits per token and the cap is not reached
  (`Tariffs.CheaperTierChargesLess`), while a smaller loss can vanish in rounding
  (`Tariffs.RoundingHidesTheFall`).
- A configuration fingerprint separates its parts by NUL bytes, so settings that hold one can share it
  and show a stale result; `StaleRuns.FreshIffSeparate` says exactly for which settings this does not
  happen, `Monitor.CleanIsSeparate` that it does not without NULs, and `StaleRuns.StaleLines` gives the
  stale result for display lines. An address or key that holds a NUL is taken to be refused by the
  HTTP client.
- The lock of `mu` prefers writers. `Locks.System` has the pending call of Lock that holds back
  readers; `Locks.NoDeadlock` does not depend on when a writer is taken to have asked.
- The rebuild adds charges with plain 64-bit addition while recording saturates;
  `Rebuild.RebuildAgreesWithRecording` says exactly when the two agree.

## Model

| member | source | states |
|---|---|---|
| Guarantees.WriteBehindConservation | internal/store/usage_manager.go:102-191 | After every run of the step system, once connected: every lifetime total and every bucket of the stored first-use window equals database + batch in transit + unwritten delta, which equals what the database held at first plus every surviving charge, its cost the exact sum cut off once at the 64-bit maximum; before the first connect, memory equals the unwritten delta |
| Guarantees.CalendarBucketConserved | internal/store/usage_manager.go:601-630 | Over every run, through any later steps without a crash: a calendar bucket that was current at the connect, or not stored then, satisfies the same equations; any other bucket shows all its requests if and only if its stored row had none |
| Guarantees.AtOrAfterIsLoadedWhole | internal/store/usage_manager.go:601-628 | Every bucket at or after the windows current at the connect is one of these, unless rows lie later than the clock |
| Guarantees.CurrentFirstUseNeverSkipped | internal/store/usage_manager.go:613-621 | The bucket of a stored first-use window is never skipped |
| Guarantees.CrashLosesExactlyTheUnwritten | internal/store/usage_manager.go:396-451 | A crash at any reachable state and a reconnect leave exactly the committed charges; a counter that was whole in memory differs by exactly the batch in transit plus the dirty delta |
| Guarantees.FlushedStatusesSurviveReload | internal/store/usage_manager.go:226-259 | After any run that was connected and has nothing unwritten, a restart shows identical statuses for every limit whose calendar window is still the same and was current, or not stored, when the run connected |
| Guarantees.FirstUseWindowsNeverOverlap | internal/store/usage_independent.go:76-118 | For arbitrary clocks and restarts: the starts ever stored for one first-use window are at least a full window apart, the last is the stored window, and memory agrees with the database once connected |
| Guarantees.RotationSparesCharges | internal/store/usage_independent.go:103-108 | A row that an admission deletes was never charged by a request, and no admitted request can still be charged to it |
| Guarantees.AdmissionIsAllOrNothing | internal/store/usage_independent.go:41-118 | A refusal changes nothing; an admission binds exactly the first-use limits, each to a window that is open, stored and the same in memory, keeps windows still open, and touches nothing else but rows at the new starts |
| Admissions.AdmittedIff | internal/store/usage_independent.go:41-94 | A request is admitted if and only if its limits are well-formed, the database is connected where a 5h or 7d limit needs it, the key is active and not expired, the total in memory (or, without one, the use the key itself carries) is below every quota, the bucket that counts for each configured limit is below its quotas, and windows that must start can be written |
| Admissions.RefusedBecause | internal/store/store.go:406-423 | Each refusal names the first check that fails, in the order limits, database, status, expiry, quotas, window limits, write |
| Admissions.AdmissionOpens | internal/store/usage_independent.go:76-91 | Every 5h or 7d limit is bound to its open window, or to one that starts now and lasts 5 hours or 7 days; nothing else is bound or opened |
| Charges.RecordCharges | internal/store/usage_manager.go:128-191 | A recorded request adds one request, its tokens and its charge (not below zero, cut off at the 64-bit maximum) to its total, to the 1h, 1d and 30d buckets of its time and to the 5h and 7d buckets it is bound to, in memory and in the delta, and to nothing else |
| Charges.BootstrapKeeps | internal/store/usage_manager.go:102-126 | An import leaves keys that memory knows, buckets and windows alone |
| Charges.BootstrapImports | internal/store/usage_manager.go:102-126 | A new key gets the counters of its first legacy entry, as unwritten if it was ever used |
| Charges.StatusShows | internal/store/usage_manager.go:226-259 | A calendar limit shows the bucket of this instant; a first-use limit is idle without a window, shows its bucket while the window is open and no use from its end on |
| Guarantees.StartsOnlyGrow | internal/store/usage_independent.go:87-94 | Along every run the recorded window starts are only appended to |
| Windows.StepKeepsWindows | internal/store/usage_independent.go:76-118 | Every step keeps the first-use window invariant: stored windows of full length, spaced starts, bindings and charged buckets at known starts, memory windows equal to stored ones when connected |
| Windows.FreshBuckets | internal/store/usage_independent.go:103-108 | A newly opened window has no cached counter, no binding and no charge at its start |
| Conservation.StepKeepsInv | internal/store/usage_manager.go:271-341 | Every one of begin, admit, record, end, take, commit, fail, connect, bootstrap and crash keeps the ledger and window invariants |
| Conservation.RunKeepsInv | internal/store/usage_manager.go:271-341 | So does every run |
| Conservation.TakeKeepsLedger | internal/store/usage_manager.go:278-281 | Taking the delta keeps the balance, also when the flush returns early because nothing is pending: no unwritten charge is dropped |
| Conservation.BootstrapKeepsLedger | internal/store/usage_manager.go:105-124 | Bootstrap keeps the balance although it overwrites the unwritten total of its key |
| Conservation.CommitKeepsLedger | internal/store/usage_manager.go:294-336 | Committing the upserts moves the batch from transit into the database |
| Conservation.FailKeepsLedger | internal/store/usage_manager.go:475-499 | Giving a failed batch back moves it into the unwritten delta |
| Conservation.ConnectKeepsLedger | internal/store/usage_manager.go:428-449 | Overlaying the loaded rows with the unwritten deltas keeps the balance |
| Conservation.AdmissionKeepsLedger | internal/store/usage_independent.go:97-117 | Opening windows, with its deletes, keeps the balance |
| Histories.SaturatedSum | internal/store/credits.go:194-202 | However non-negative charges are ordered and merged in batches, the saturating sum of the batch sums is the same, its cost the exact sum cut off at the 64-bit maximum |
| Counters.PlusIsCommutativeMonoid | internal/store/usage_manager.go:305 | Saturating counters form a commutative monoid, and the CASE expression in SQL is the same operation |
| Overshoot.OvershootBound | internal/gateway/proxy.go:168-231 | Over every run: recorded usage plus cap for each admitted unrecorded request is at most quota - 1 + concurrency * cap (or what was there before the first admission), plus what was imported after it |
| Overshoot.ConnectedServerBound | internal/gateway/proxy.go:779-782 | A server connected before it serves keeps the plain bound quota - 1 + concurrency * cap, unless usage exceeded it already |
| FullLoad.BoundIsReached | internal/gateway/proxy.go:168-231 | For every quota, cap and concurrency some run on a database that is read first reaches the bound exactly |
| Overshoot.FirstUseKeyBound | internal/store/usage_independent.go:50-57 | Every bucket of a key with a first-use limit, and its lifetime total when each process bootstraps before it serves, keeps the bound whenever the server connects |
| LateConnect.WindowBoundIffFirstUseLimit | internal/store/usage_independent.go:50-57 | For a window quota of a key that is usable at some time, the bound holds over all runs if and only if the key has a first-use limit |
| LateConnect.TotalBoundIffFirstUseLimit | internal/store/usage_independent.go:50-57 | For a lifetime quota of such a key, the bound holds over all runs whose processes bootstrap before they serve if and only if the key has a first-use limit |
| LateConnect.LateRun | cmd/transit-hub/main.go:40-47 | The run that breaks either bound: begin, admit against the empty cache, connect to a database with usage in the current window and in the lifetime total |
| Overshoot.AdmittedBelowQuota | internal/store/usage_independent.go:65-75 | A request is admitted only while every counter it will be charged to is below its quota |
| Overshoot.StepKeepsThrottle | internal/gateway/credits.go:28-51 | No step lets a key have more requests in progress than its limit |
| Gateway.Gateway.BeginKeyRequest | internal/gateway/credits.go:28-43 | Succeeds exactly if the key has fewer requests in progress than the limit; the counter stays the number of requests in progress |
| Gateway.Gateway.EndKeyRequest | internal/gateway/credits.go:44-51 | Takes the request out; idle keys keep no entry |
| Gateway.Gateway.Advance | internal/gateway/credits.go:28-51 | Admitting and recording a request leave the counters right |
| Manager.UsageManager.constructor | internal/store/usage_manager.go:78-100 | A manager starts connected to the stored rows, or empty and degraded if they cannot be read |
| Manager.UsageManager.Bootstrap | internal/store/usage_manager.go:102-126 | The loop over legacy keys makes exactly the bootstrap of the ledger |
| Manager.UsageManager.Record | internal/store/usage_manager.go:128-191 | Charges the total and every window of the request, in memory and in the unwritten delta, by the same amount |
| Manager.UsageManager.ChargeBuckets | internal/store/usage_manager.go:158-187 | The window loop touches the calendar buckets of the time and the bound first-use buckets, each once |
| Manager.UsageManager.Flush | internal/store/usage_manager.go:271-341 | Uninterrupted: the delta is written whole and once, or given back; an unreadable database leaves everything as it was |
| Manager.WriteRows | internal/store/usage_manager.go:294-330 | The row loop writes the additive upsert of all rows, or fails before the end |
| Manager.UsageManager.TakeDirty | internal/store/usage_manager.go:463-473 | Swaps out the delta and the pending count |
| Manager.UsageManager.RestoreDirty | internal/store/usage_manager.go:475-499 | Merges a batch back into whatever was recorded meanwhile |
| Manager.MergeRows | internal/store/usage_manager.go:478-497 | The merge loop is the pointwise saturating sum |
| Manager.FailedFlushIsNoChange | internal/store/usage_manager.go:475-499 | Take and give back with nothing in between is no change |
| Manager.UsageManager.Connect | internal/store/usage_manager.go:396-451 | Loads the current rows under the unwritten deltas, once |
| Manager.LoadBuckets | internal/store/usage_manager.go:601-630 | The row scan keeps exactly the rows of current calendar windows and of stored first-use windows |
| Manager.OverlayRows | internal/store/usage_manager.go:429-448 | The overlay loops replace cached entries by loaded row plus unwritten delta |
| Manager.UsageManager.RateLimitStatuses | internal/store/usage_manager.go:213-259 | One status per normalized limit, its use read from the window that applies; idle and expired windows show none |
| Manager.UsageManager.Admit | internal/store/usage_independent.go:41-118 | Decides as the ledger specification; memory and database change only on admission, and the transaction is all or nothing |
| Manager.UsageManager.BindWindows | internal/store/usage_independent.go:76-91 | The loop over limits binds every first-use limit to its open window or to one opened now |
| Manager.UsageManager.OpenWindows | internal/store/usage_independent.go:95-117 | Publishes the windows in memory only after the transaction with its deletes is committed |
| Refinement.FlushIsARun | internal/store/usage_manager.go:271-341 | Flush, whether or not the database is readable and writable, is the run connect, take, then commit or give back, with the outcome that the contract of the method states |
| Refinement.AdmitIsARun | internal/store/usage_independent.go:50-118 | Admit is the run of its connect, if it needs one, and the admission step, with the outcome that the contract of the method states |
| Refinement.CallIsARun | internal/store/usage_manager.go:78-341 | So is every other call: begin, record, end, bootstrap, restart |
| Refinement.ProgramIsARun | internal/store/usage_manager.go:78-341 | Every sequence of calls on a starting server is a run of the step system that ends in what the calls leave, so the theorems over runs hold of it |
| RateLimits.NormalizeRateLimits | internal/store/rate_limits.go:64-90 | The loop with its set of seen windows and the sort yield the first error, or the limits in window order |
| RateLimits.AcceptedLimits | internal/store/rate_limits.go:64-90 | Limits are accepted if and only if each names a window, none has a negative quota and no window, as parsed, is named twice |
| RateLimits.AcceptedIff | internal/store/rate_limits.go:64-84 | The same from any point of the loop, for the windows seen so far |
| RateLimits.SortedIsAscending | internal/store/rate_limits.go:86-88 | The result holds exactly the parsed limits, strictly ascending by length of window |
| RateLimits.WindowNames | internal/store/rate_limits.go:13-19 | 1h, 5h, 1d, 7d and 30d, trimmed and in lower case, are the five windows, and there is no other name |
| RateLimits.NamesAsWritten | internal/store/rate_limits.go:64-73 | Blanks around a name and the case of its letter do not matter |
| RateLimits.FirstBadLimit | internal/store/rate_limits.go:64-84 | The error is that of the first limit that is unsupported, repeated or negative, in this order |
| RateLimits.AscendingUnique | internal/store/rate_limits.go:86-88 | There is only one such order |
| RateLimits.FirstViolationIsFirst | internal/store/rate_limits.go:131-144 | No violation exactly if no quota is exhausted; otherwise the first exhausted status and, in it, the first dimension |
| RateLimits.FirstRateLimitViolation | internal/store/rate_limits.go:131-144 | The scan returns that violation |
| Calendar.WindowsInRealTime | internal/store/rate_limits.go:146-180 | 1h windows start at a whole hour and last 3600 s, 1d windows at midnight and 86400 s, local time; 5h and 30d windows start a whole number of 5 hours or 30 days from the local epoch and last as long |
| Calendar.WeeksInRealTime | internal/store/rate_limits.go:160-164 | 7d windows start at midnight on a Monday and last seven days |
| Calendar.BoundsContainNow | internal/store/rate_limits.go:146-180 | A window contains the instant it was computed for exactly if the instant is covered (windows counted from the local epoch truncate toward it and saturate) |
| Calendar.WindowsTile | internal/store/rate_limits.go:146-180 | All instants of a window get the same bounds and no other instant does, consecutive windows abut, starts are monotone |
| Calendar.WeekStartsOnMonday | internal/store/rate_limits.go:160-164 | A 7d window starts at midnight on a Monday |
| Locks.NoDeadlock | internal/store/usage_manager.go:271-341 | For any set of operations and every schedule in which no thread is let into a lock that conflicts with a held one, whatever else the locks make it wait for: no two threads hold conflicting locks, an unfinished thread means that some thread can move even if readers wait for every writer, and every thread can still finish that way |
| Locks.NoDeadlockOfSystem | internal/store/usage_manager.go:271-341 | The same with the read-write lock as it is, where one pending call of Lock holds back new readers and waits for the readers that are in: every interleaving of calls and lock steps can go on and finish, and none is longer than twice the work |
| Locks.PendingWriterHoldsBackReaders | internal/store/usage_manager.go:128-196 | A reader can hold mu while Record waits for it; then neither Record nor another reader gets in before it leaves |
| Locks.ProgramsSound | internal/store/usage_independent.go:50-97 | Flush, Admit, Record, Bootstrap, readers and the health check ask for a lock only while holding what the discipline allows |
| Locks.WithoutFlushMuDeadlock | internal/store/usage_independent.go:58-62 | Without flushMu the two critical sections reach a state in which nobody can move |
| Sse.Collect | internal/usage/usage.go:91-183 | However a response is cut into chunks, the observation is the one of the whole input |
| Sse.Parser.Write | internal/usage/usage.go:91-134 | After any chunk the fields summarize the whole lines so far, with lines over 8 MiB skipped; in body mode exactly the first 8 MiB are kept and the body is truncated if and only if there is more |
| Sse.Parser.Finish | internal/usage/usage.go:138-183 | Returns the observation of the whole input, the last unfinished line included |
| Sse.Parser.TakePiece | internal/usage/usage.go:111-119 | Part of a line is buffered, or the line dropped once it exceeds the limit |
| Sse.Parser.ChatEvent | internal/usage/usage.go:220-242 | Keeps the last non-zero usage, else the last zero one |
| Sse.Parser.ResponsesEvent | internal/usage/usage.go:244-265 | Keeps the last usage; final once a terminal event carries one |
| Sse.Parser.AnthropicEvent | internal/usage/usage.go:269-307 | Counters come from the last event that has them, output from the last usage; final after a message_delta with usage |
| Sse.LastIsLast | internal/usage/usage.go:220-242 | The last report is the one with no later report |
| Sse.LinesJoin | internal/usage/usage.go:106-133 | The lines hold no newline and join to the input |
| Sse.LinesAreUnique | internal/usage/usage.go:106-133 | There is no other way to cut the input into lines |
| StreamReports.ChatReportsNonZero | internal/usage/usage.go:220-242 | A chat stream reports its last usage that is not zero, which is final |
| StreamReports.ChatReportsZero | internal/usage/usage.go:220-242 | If all are zero it reports the last, final exactly if the stream is complete |
| StreamReports.ChatReportsNothing | internal/usage/usage.go:220-242 | Without usage it reports zeros, and nothing is final |
| StreamReports.ResponsesReport | internal/usage/usage.go:244-265 | A Responses stream reports its last usage |
| StreamReports.ResponsesReportNothing | internal/usage/usage.go:244-265 | Without one it reports zeros |
| StreamReports.ResponsesFinal | internal/usage/usage.go:244-265 | It is final exactly if a completed, incomplete or failed event carried usage |
| StreamReports.MessagesReportInput | internal/usage/usage.go:269-307 | A Messages stream reports input and cache counters of the last start with usage or delta with input |
| StreamReports.MessagesReportOutput | internal/usage/usage.go:269-307 | It reports the output of the last start or delta with usage |
| StreamReports.MessagesReportNothing | internal/usage/usage.go:269-307 | Without them it reports zeros |
| StreamReports.MessagesFinal | internal/usage/usage.go:269-307 | It is final exactly if a delta carried usage |
| StreamReports.ErrorsReported | internal/usage/usage.go:220-307 | A stream is an error exactly if one of its events is, by the rule of its protocol |
| StreamReports.TextAddsUp | internal/usage/usage.go:220-307 | Each event adds the characters it shows, by the rule of its protocol |
| StreamReports.DataIsRead | internal/usage/usage.go:195-218 | A line data: followed by anything but [DONE] is an event, whatever spaces are around |
| StreamReports.OtherLinesAreSkipped | internal/usage/usage.go:195-218 | Other lines are none |
| StreamReports.LongLinesAreSkipped | internal/usage/usage.go:106-133 | Lines up to 8 MiB are read, longer ones skipped |
| StreamReports.LastLineCounts | internal/usage/usage.go:138-150 | An unfinished last line counts like a finished one |
| StreamReports.BodyReports | internal/usage/usage.go:151-183 | A body up to 8 MiB that decodes reports its own usage, or that under response if it has no usage object; any other reports nothing |
| Tts.Collect | internal/usage/tts.go:33-127 | However a response is cut into chunks, the observation is the one of the whole input |
| Tts.TtsCollector.Write | internal/usage/tts.go:33-78 | After every byte the text and body buffers are within 4096 and 262144 bytes and all flags agree with the whole-input reading; invalid if and only if a control byte stands in a string or the redacted body exceeds its limit |
| Tts.TtsCollector.Finish | internal/usage/tts.go:80-127 | Reports only for a complete, valid response with every string closed |
| Tts.ReadPrints | internal/usage/tts.go:38-71 | Every input has a reading as plain bytes and string literals, which prints back to it |
| Tts.ReadIsUnique | internal/usage/tts.go:38-71 | It is the only reading: literals close at the first quotation mark after an even run of backslashes |
| Tts.RedactionOnBytes | internal/usage/tts.go:45-66 | For every input: redaction is idempotent on bytes, leaves no long string, and is the identity exactly if every string is closed and none is long |
| Tts.RedactIsIdempotent | internal/usage/tts.go:45-66 | The same on tokens |
| TtsReports.DashScopeReports | internal/usage/tts.go:86-127 | DashScope: trimmed request id and code, the characters under usage, final exactly if there is no code and they are present and not negative |
| TtsReports.MiniMaxReports | internal/usage/tts.go:86-127 | MiniMax: trimmed trace id and the status code, the characters under extra_info, final exactly if the status is absent, empty or 0 and they are present and not negative |
| TtsReports.NothingReported | internal/usage/tts.go:80-85 | An incomplete, broken or undecodable response reports nothing |
| TtsReports.IntactIff | internal/usage/tts.go:33-78 | Unbroken means closed strings without control bytes and at most 256 KiB once long strings are replaced |
| TtsReports.StringsKept | internal/usage/tts.go:45-66 | Strings up to 4096 bytes are kept, longer ones become an empty object, all other bytes are kept |
| Billing.TokenCost | internal/store/credits.go:161-182 | The charge is the exact tariff of the applying tier, rounded half up once and capped |
| Charging.CostIs | internal/store/credits.go:161-182 | That tariff written out: missed input, hits, writes and output at the prices of the last tier below the input, or the base prices; a hit or write without a price of its own costs the input price |
| Charging.HitsWithoutPrice | internal/store/credits.go:174-177 | Without a cache-hit price, hits make no difference |
| Charging.WritesWithoutPrice | internal/store/credits.go:178-180 | Without a cache-write price, writes make no difference |
| Charging.FreeCostsNothing | internal/store/credits.go:161-164 | A free price charges nothing |
| Charging.ChargeIs | internal/store/credits.go:153-158 | The charge of an amount is (n + 500000) / 1000000 (or (n + 5000) / 10000), at most the 64-bit maximum |
| Charging.TokensAreNotFree | internal/store/credits.go:57-115 | A saved price per token charges something for some request |
| Billing.PricedSum | internal/store/credits.go:146-159 | Exact sum of the positive products, one rounding, capped |
| Billing.ChargeUnique | internal/store/credits.go:153-158 | The rounded and capped charge of an amount is unique |
| Billing.HighestTierApplies | internal/store/credits.go:165-171 | With increasing thresholds exactly the highest threshold below the input applies |
| Billing.SplitIsPartition | internal/store/credits.go:172-173 | Hit, write and miss are a partition of the input for any reported counters |
| Tariffs.NeverFallsIffTiersRise | internal/store/credits.go:161-182 | For every valid price: the cost before rounding and capping never falls with more input, whatever the counters, if and only if at every tier boundary seven inequalities between the old and the new rates hold |
| Tariffs.CheaperTierCostsLess | internal/store/credits.go:161-171 | Where one of them fails, some counters make one token more cost less at that boundary, before rounding and capping |
| Tariffs.CheaperTierChargesLess | internal/store/credits.go:146-182 | If the prices on both sides are whole micro-Credits per token, what is charged falls there too, unless it is still capped |
| Tariffs.RoundingHidesTheFall | internal/store/credits.go:146-182 | There is a valid price for which they fail and no charge ever falls |
| Tariffs.SomeTierCostsLess | internal/store/credits.go:46-52 | There is a valid price for which they fail, and which charges 2000 micro-Credits for 1000 input tokens and 1001 for 1001 |
| Tariffs.CostMonotone | internal/store/credits.go:161-182 | The charge never falls with more input and output within a tier of any price, or across the tiers of a valid price that rise |
| Tariffs.PartsAgainstWhole | internal/store/credits.go:144-182 | The charges of n requests and of their sum in the same tier differ by at most (n + 1) / 2 micro-Credits if none is capped and the reported counters add up |
| Tariffs.ConsistentAddsUp | internal/store/credits.go:172-173 | Counters that need no clipping add up |
| Tariffs.AddsUpIff | internal/store/credits.go:172-173 | Counters add up if and only if, for every price, the exact tariff of the sum is the sum of the exact tariffs |
| Tariffs.CloseIffAddsUp | internal/store/credits.go:144-182 | For moderate counts: the bound of PartsAgainstWhole holds at every valid price if and only if the counters add up |
| Tariffs.InconsistentPartsDiffer | internal/store/credits.go:172-173 | Counters that do not add up, and a price at which their charges 0 and 10 are out of bounds for the charge 0 of their sum |
| Billing.ValidateBilling | internal/store/credits.go:57-115 | A price is accepted if and only if it is valid: modes, ranges, increasing tiers, distinct image rules |
| Charging.SavedPricesInRange | internal/store/credits.go:57-115 | No amount of a saved price is negative or over 9 * 10^15 |
| Charging.SavedModes | internal/store/credits.go:57-115 | Speech protocols charge per character or nothing, only tokens have tiers, images have a price |
| Billing.ImageCost | internal/store/credits.go:184-192 | The exact product, capped, with an overflow test by division |
| Billing.CharacterCost | internal/store/credits.go:205-216 | Rounded half up once per ten thousand characters, capped; for a negative price what integer division toward zero makes of it |
| Billing.ImageUnitCost | internal/store/credits.go:117-142 | A price is found exactly if one matching rule is more specific than all other matches |
| Billing.PriceFoundIff | internal/store/credits.go:117-142 | With distinct rules none is found exactly if none matches, or a size rule and a quality rule compete without an exact one |
| Charging.BothNamed | internal/store/credits.go:117-142 | A rule that names both size and quality counts |
| Charging.SizeNamed | internal/store/credits.go:117-142 | Without one, a rule that names the size counts if none names just the quality |
| Charging.QualityNamed | internal/store/credits.go:117-142 | And the other way round |
| Charging.NothingNamed | internal/store/credits.go:117-142 | The rule that names nothing counts if no other matches |
| Template.ParseProviderQuotaTemplate | internal/config/quota_template.go:27-64 | The loop computes the grammar of templates, with the first error |
| Template.ParseProviderQuotaPlaceholder | internal/config/quota_template.go:66-89 | The loop over segments computes the grammar of placeholders |
| TemplatePrint.RoundTrip | internal/config/quota_template.go:27-89 | Parsing the canonical print of a well-formed template gives it back |
| TemplatePrint.ParsedIsWellFormed | internal/config/quota_template.go:27-89 | Every successful parse is well-formed |
| TemplatePrint.PrintedParsesTheSame | internal/config/quota_template.go:27-89 | Parse, print, parse equals parse |
| TemplateSpelling.ParsesIffSpelled | internal/config/quota_template.go:27-89 | A text parses to some parts if and only if it is the concatenation of literal texts and raw contents in double braces, these braces the first ones, and the parts are those texts and what the trimmed contents say |
| TemplateSpelling.RestDecides | internal/config/quota_template.go:27-64 | After valid pieces the rest decides whether a text parses, and with which error |
| TemplateSpelling.ClosedTooEarly | internal/config/quota_template.go:33-42 | Closing braces before opening ones are unexpected |
| TemplateSpelling.NotClosed | internal/config/quota_template.go:45-49 | Opening braces that nothing closes are unclosed |
| TemplateSpelling.OpenedBadly | internal/config/quota_template.go:50-54 | Braces around nothing, or around more opening ones, are invalid |
| TemplateSpelling.PlaceholderIs | internal/config/quota_template.go:66-89 | A placeholder is an identifier and a formatter after each bar |
| TemplateSpelling.FormatterRead | internal/config/quota_template.go:73-86 | A formatter is a name in any case and what follows the first colon, both trimmed |
| TemplateSpelling.AcceptsIs | internal/config/quota_template.go:91-143 | Which formatters there are, and which argument each takes |
| Telemetry.NothingIsLost | internal/store/telemetry.go:64-205 | Over every run: attempts = written + dropped + queued + batched; accepted entries are settled, batched and queued in order; at most 10000 are queued and 100 batched |
| Telemetry.HundredthIsWritten | internal/store/telemetry.go:166-171 | The hundredth entry of a batch makes the writer write it, and no earlier one |
| Telemetry.FullQueueDrops | internal/store/telemetry.go:64-78 | An entry is dropped on arrival exactly if 10000 are queued |
| Telemetry.FlushIsComplete | internal/store/telemetry.go:84-97 | For every run up to a flush request and from there to its answer: every entry accepted before the request is written or counted as dropped, in order; and there is no error exactly if everything settled since is written |
| Telemetry.RequestRemembered | internal/store/telemetry.go:176-189 | Until the answer the flush in progress remembers its own request, while entries keep arriving |
| Telemetry.RowsKeepOrder | internal/store/telemetry.go:127-205 | Rows are written in the order of acceptance |
| Telemetry.Writer.Enqueue | internal/store/telemetry.go:64-78 | Accepts exactly if fewer than 10000 entries are queued, else counts a drop |
| Telemetry.Writer.WriteBatch | internal/store/telemetry.go:135-151 | Writes or drops the whole batch and empties it |
| Telemetry.Writer.Drain | internal/store/telemetry.go:152-161 | With entries arriving after every receive, drains until the queue is empty or the batch full |
| Telemetry.Writer.AnswerFlush | internal/store/telemetry.go:176-189 | With any arrivals, everything accepted before the flush is settled in order when it is answered, and it succeeds exactly if all settled since was written |
| Monitor.NoStaleResult | internal/providerquota/monitor.go:133-157 | In every interleaving of sweeps, fetches, late results and replacements by settings that the configuration identity tells apart where it matters: a snapshot for exactly the loaded targets, and shown entries are what an upstream answered to the address and key loaded now, read under the configuration loaded now |
| Monitor.CleanIsSeparate | internal/providerquota/monitor.go:409-448 | It tells apart all settings without a NUL |
| StaleRuns.FreshIffSeparate | internal/providerquota/monitor.go:133-157 | No run that loads given settings shows a stale result, however bodies are read, if and only if no two of them for one account, the first one sendable, share the hash input of the configuration identity and differ in address, key or normal form |
| StaleRuns.StaleLines | internal/providerquota/monitor.go:133-157 | Two display lines replaced by one that holds a NUL, the tag and a NUL: the old result stays on show |
| QuotaIdentity.SamePartsIff | internal/providerquota/monitor.go:409-439 | Two configurations give the same tagged list if and only if key and interval are the same and the configurations differ at most in spaces around address and items path and in value maps without entries |
| QuotaIdentity.SameHashInputIff | internal/providerquota/monitor.go:441-448 | The same for what is hashed, if no setting holds a NUL |
| QuotaIdentity.NulLineCollides | internal/providerquota/monitor.go:421-448 | A display line that holds a NUL, the tag and a NUL is hashed like two display lines |
| Monitor.StaleResultIsDropped | internal/providerquota/monitor.go:331-363 | A result changes what is shown only if its configuration identity is still the loaded one; what it shows then is for a like configuration |
| Monitor.QuotaMonitor.Replace | internal/providerquota/monitor.go:133-157 | Unchanged accounts keep schedule and snapshot, all others start blank |
| Monitor.QuotaMonitor.Sweep | internal/providerquota/monitor.go:242-256 | Every due target is scheduled again and stands in exactly the group of its request |
| Monitor.QuotaMonitor.ApplyResult | internal/providerquota/monitor.go:331-363 | Applies a result to the snapshot of a target that is still current |
| Monitor.QuotaMonitor.BuildTargets | internal/providerquota/monitor.go:365-407 | The loop builds the targets and a blank snapshot for each |
| Schedules.ReplaceLoads | internal/providerquota/monitor.go:365-407 | The last setting of an account is loaded with its address trimmed and its two fingerprints; with an unchanged configuration it keeps schedule and snapshot, else it is due at once and blank |
| Schedules.ReplaceLoadsOnly | internal/providerquota/monitor.go:365-407 | Nothing else is loaded |
| Schedules.AccountsDiffer | internal/providerquota/monitor.go:382 | Accounts are told apart by provider, pool and name |
| Schedules.SweepAsks | internal/providerquota/monitor.go:242-256 | A sweep asks for exactly the due targets and schedules each an interval later |
| Schedules.NotAgainBefore | internal/providerquota/monitor.go:242-256 | Until then no sweep asks for it again |
| Schedules.ResultShows | internal/providerquota/monitor.go:331-363 | A failure is shown beside the entries of the last success, a success replaces them, no other account is touched |
| Breaker.CircuitBreaker.Allow | internal/provider/circuit.go:48-60 | Permits exactly what the call history permits, and keeps the breaker non-closed exactly if the trailing run of failures reached the threshold |
| Breaker.CircuitBreaker.Record | internal/provider/circuit.go:62-78 | Keeps state, failures and opening time those of the history |
| Breaker.RefusalMeansRecentFailure | internal/provider/circuit.go:48-60 | A refusal comes only within the cooldown of the last failure, with no earlier caller let through since |
| Breaker.PermissionLasts | internal/provider/circuit.go:55-58 | Once let through, so are all later callers until the next report |
| Breaker.RefusedAtThreshold | internal/provider/circuit.go:48-78 | After a run of failures a request is refused exactly if the run has reached the threshold and the last failure is less than the cooldown ago |
| Breaker.PickAccount | internal/provider/registry.go:367-391 | No account exactly if no positive weight is permitted; otherwise the account whose stretch the draw falls into |
| Breaker.Walk | internal/provider/registry.go:383-390 | The walk finds the stretch of the draw; its trailing return is unreachable |
| Breaker.ExactShare | internal/provider/registry.go:367-391 | Exactly as many draws pick an account as is its share |
| Breaker.DrawsPerWeight | internal/provider/registry.go:367-391 | As many draws pick an account as it has weight, if that is positive and its breaker permits, else none |
| Breaker.OnePick | internal/provider/registry.go:367-391 | Every draw picks exactly one account |
| Rebuild.LoadLegacyUsageBuckets | internal/store/split_migration.go:447-504 | The nested loops compute, per bucket, the grouped sums with a wrapping charge, and an entry exactly where a row counts |
| Rebuild.RebuildAgreesWithRecording | internal/store/split_migration.go:447-504 | For current calendar windows and at least 30 days of retention the rebuilt requests and tokens equal the recorded ones, and the whole bucket does if and only if the exact charge is within 64 bits (or wraps to the maximum) |
| Rebuild.RecordedIsExact | internal/store/usage_manager.go:158-187 | Recorded one by one, a current calendar bucket holds the exact grouped sums, the charge cut off at the maximum |
| Rebuild.RebuildIgnoresOrder | internal/store/split_migration.go:452-457 | The rebuilt buckets do not depend on the order of the rows |

## Left out

- Time of last use and of last update of counters: stored as text of varying precision, so an exact maximum does not follow.
- Pruning of old log rows: `rows` are all rows ever written.
- Remaining amounts in statuses, the degraded flag of telemetry, log messages and error texts: shown to people, and read back by no operation that is modelled.
- Closing the managers, timers, back-off and wake-up signals: steps are scheduled nondeterministically.
- Daylight saving: a zone is a fixed offset.
- Overflow of request, token and length counters: mathematical integers.
- `Flush` and `Admit` as methods run uninterrupted; `Protocol` interleaves their parts at the points where `mu` is free, and takes the durable and the in-memory half of an admission as one step, since both happen under `mu` and a crash in between equals a crash after it.
- `Connect` reads the database in one step: before the first connect nothing else writes to it.
- Database calls that fail in the middle of reading: a connect that cannot read everything is no connect.
- LateConnect.TotalBoundIffFirstUseLimit: over runs whose processes bootstrap before they serve, as cmd/transit-hub/main.go:40-52 does.
- Tariffs.PartsAgainstWhole: for counters that add up; Tariffs.CloseIffAddsUp says that this is needed.
- Tariffs.CloseIffAddsUp: for fewer than 9 * 10^9 requests and so few tokens that a price of one micro-Credit per token and request stays below the cap; above it charges are cut off and say less.
- Tariffs.NeverFallsIffTiersRise: before rounding and capping; for charges Tariffs.CostMonotone and Tariffs.CheaperTierChargesLess give the two directions, the second for prices of whole micro-Credits per token.
- Rebuild.RebuildAgreesWithRecording: for instants whose windows contain them, charges that are not negative and rows logged no earlier than started; keys with an empty id are never recorded.
- Telemetry.Writer.AnswerFlush: that a flush ends although entries keep arriving; the arrivals are a finite list.
- Monitor.NoStaleResult: the hash is taken to be injective; reading a body is taken to depend only on the normal form of the configuration.
- Monitor.CleanIsSeparate: sorting is taken to order names uniquely, and durations to print differently and without a NUL.
- Breaker.PickAccount: draws are any value below the total; the quality of randomness is not modelled.
- JSON and YAML decoding, usage field mapping, gzip, TLS, RSA, bcrypt: foreign libraries, parameters of the model.
- Embedding of text in JSON events (choices, deltas, blocks) is a pair of character counts per event.
- The count of decoded bytes and the estimate of tokens from it: floating point, best effort.
- Building the provider registry and looking up routes: maps built once from the configuration and looked up by name, with nothing kept from call to call.
- HTTP routing, headers, admin and reporting endpoints, schema migration, backups, SQL text: plumbing without a stateful invariant.
- Per-request choice of observed, estimated or requested usage in the gateway, and request validation tables: case distinctions on one request; the ledger and the tariffs are proved for any counters they may yield.
