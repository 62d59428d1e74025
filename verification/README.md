# TaxMind Books: a verified model of its core

TaxMind Books mirrors accounting entries between a cloud backend and TallyPrime through a desktop
connector. This project models the parts of it that carry state, and proves what they keep.
`dafny verify dfyconfig.toml` checks everything.

| file | what it models |
|---|---|
| Prelude.dfy | optional values, white space and `strip`, concatenation |
| VoucherScanner.dfy | the buffer machine that finds voucher blocks in a stream of chunks |
| TallyText.dfy | the repair of character references in Tally's XML text |
| LedgerGuids.dfy | the join that attaches ledger GUIDs to exported voucher lines |
| CommandCache.dfy, CommandProtocol.dfy, CommandAnswers.dfy, CommandLateWrites.dfy, CommandDispatch.dfy | the connector's idempotency cache, the life of a mutating command, what each outcome leads to, cache writes that outlive their session, and the checks in front |
| LedgerSync.dfy, LedgerOnePass.dfy, LedgerCounters.dfy | the GUID-first ledger sync, when one pass is enough, and what its counters mean |
| HttpLease.dfy, HttpAnswers.dfy | the `Idempotency-Key` lock, takeover and replay, and who proceeds |
| VoucherBooks.dfy, VoucherRules.dfy, VoucherRaces.dfy, TrialBalance.dfy | vouchers, what is accepted and why not, their life, overlapping approvals and rejections, and what the books add up to |
| VoucherGroups.dfy, CashMetrics.dfy, CashReference.dfy | ledger groups, the dashboard's figures, and the same figures found another way |
| Ownership.dfy, OwnershipRules.dfy, DeletionWorker.dfy | members of companies, what each call permits, the erasure of accounts and its daily worker |
| CompanyListing.dfy | the paged listing of companies |
| EnvFile.dfy | the connector's `.env` file |

## How the model is made

Code that changes state is a class or a method with its loops, proved against a function; the
theorems are about that function and about runs of it.

- Tables are sequences or maps; a row is known by its key or its place. Money is in whole paise,
  time in whole seconds. Each step reads the clock once.
- Tally, the connector's answers and what other parts of the backend do to a voucher's status are
  arbitrary events of a run.
- `strip().lower()` on ledger names is a parameter; the theorems about names hold for every
  normalization. So is the lower-casing of group names, of which only `KeepsEnds` is used. The
  decimal digits of the reference pattern are a parameter that is right about ASCII.
- The hash of a request body is part of the request.
- A cache method, a check, a store and a service call are atomic steps. Where the source waits
  between a check and a write, both halves are modelled as well.
- In CommandProtocol the watched key is arbitrary, so the counts hold for every key.

## Where the source and its descriptions differ

- A check of an idempotency key never looks at the expiry of the row
  (`backend/app/core/idempotency.py:167` sets it), so a finished row replays for as long as it is there.
- The connector's cache stores the request hash and never compares it
  (`connector/connector/message_handlers.py:542-548`).
- The sole-owner test of an erasure is made when it is requested and not when it is carried out
  (`backend/app/services/account_lifecycle_service.py:270-354`).
- A retryable answer of Tally may report a change (`connector/connector/tally_client.py:700-713`).
- One pass of the ledger sync is described as idempotent
  (`backend/app/services/ledger_service.py:334`); a second pass over the same payload may still change names.
- The voucher rules strip all white space of a group name, the dashboard only blanks
  (`backend/app/services/voucher_groups.py:26`, `backend/app/services/dashboard_service.py:328`).

## Model

| member | source | states |
|---|---|---|
| VoucherScanner.NextOpenIsFirst | connector/connector/tally_client.py:494-497 | The opening search finds a match of the pattern, in any case and followed by white space or `>`, and none comes before it; the end of the text means there is none. |
| VoucherScanner.NextCloseIsFirst | connector/connector/tally_client.py:501-536 | The closing search finds the first `</VOUCHER>`, in capitals only, or reports that there is none. |
| VoucherScanner.OpensAtIff | connector/connector/tally_client.py:494-497 | What counts as an opening tag, letter by letter: `<VOUCHER` in any mixture of cases, then white space or `>`. |
| VoucherScanner.ClosesAtIff | connector/connector/tally_client.py:501-502 | What counts as a closing tag, letter by letter, in capitals only. |
| VoucherScanner.HasAttributesIff | connector/connector/tally_client.py:498-500 | A block has attributes if and only if a letter is the first thing behind one or more white space characters after the tag name; the four characters that fold to a Latin letter count as letters. |
| VoucherScanner.Scanner.constructor | connector/connector/tally_client.py:521-522 | The buffer is empty, which is what the specification leaves of the empty text. |
| VoucherScanner.Scanner.Feed | connector/connector/tally_client.py:524-547 | After any feed the buffer is what one scan of everything fed so far leaves, and the blocks returned are exactly the ones that this feed added to those of the whole text. |
| VoucherScanner.Scanner.Advance | connector/connector/tally_client.py:525-547 | The loop on the buffer in place terminates and computes `Scan`: the blocks in order and the rest that stays in the buffer. |
| VoucherScanner.Scanner.ReadAll | connector/connector/tally_client.py:1043-1065 | However a response is cut into chunks, the blocks collected are those of the whole response. |
| VoucherScanner.ScanSplit | connector/connector/tally_client.py:524-547 | For all texts a and b: scanning a, then scanning what is left of it with b appended, gives the blocks and the rest of one scan of a + b. |
| VoucherScanner.BufferIsSettled | connector/connector/tally_client.py:528-544 | Between feeds the buffer is a suffix of what was fed, and either at most 8 characters or starts with an opening tag that is not closed yet. |
| VoucherScanner.DocumentGivesItsVouchers | connector/connector/tally_client.py:494-547 | For every sequence of well-formed elements with fillers that open no tag, the scanner emits exactly the elements with attributes, in order, skips the counters, and then scans the tail as if it stood alone. |
| VoucherScanner.RenderIsElement | connector/connector/tally_client.py:528-543 | A well-formed element on its own is found as one block that ends at its own closing tag. |
| VoucherScanner.AttributesOfRender | connector/connector/tally_client.py:498-500 | The attribute test separates vouchers from `<VOUCHER>N</VOUCHER>` counters, both ways. |
| TallyText.SanitizeDropsForbidden | connector/connector/tally_client.py:404-414 | On every text made of items the rewrite gives the text of the items without those numeric references that name a forbidden code point, byte for byte. |
| TallyText.ControlReferencesGo | connector/connector/tally_client.py:399-414 | A decimal or hexadecimal reference that stands alone is dropped if and only if its number is below 32 and not 9, 10 or 13; else it stays as it is. |
| TallyText.HexDigitsAre | connector/connector/tally_client.py:404-406 | The sixteen digits in both cases, each with its value, and no other character. |
| TallyText.LastDigit | connector/connector/tally_client.py:407-414 | A decimal reference is read in base ten: the last digit counts once, what stands in front of it ten times. |
| TallyText.LastHexDigit | connector/connector/tally_client.py:407-414 | A hexadecimal reference is read in base sixteen. |
| TallyText.ParseThenRender | connector/connector/tally_client.py:404-414 | A text that reads as items is the text of those items, and the items are valid. |
| TallyText.RenderThenParse | connector/connector/tally_client.py:404-414 | The text of valid items reads as exactly those items: decimal, hexadecimal and named references and plain characters are told apart. |
| TallyText.SanitizeKeepsMeaning | connector/connector/tally_client.py:399-414 | On every text in which each `&` opens a terminated reference: the result has the same property, its items are the old ones without the forbidden references, it holds no forbidden reference, and its expansion is the old one without the forbidden code points if and only if none of these stands in the text unescaped. |
| TallyText.FixedPointsAreClean | connector/connector/tally_client.py:407-414 | A text is unchanged by the rewrite if and only if it holds no forbidden reference. |
| TallyText.WellFormedBecomesClean | connector/connector/tally_client.py:407-414 | On well-formed text the result is clean and a second pass changes nothing. |
| TallyText.CleanUnlessSpliced | connector/connector/tally_client.py:404-414 | On any text at all: the result of one pass holds no forbidden reference if and only if no bare `&` is continued, past references that are dropped, into a forbidden one. |
| TallyText.IdempotentUnlessSpliced | connector/connector/tally_client.py:404-414 | On any text: a second pass changes nothing if and only if nothing is spliced in that sense. |
| TallyText.BareAmpersandSplices | connector/connector/tally_client.py:404-414 | A whole family for which one pass creates a forbidden reference: `&`, a forbidden reference, and the same reference without its `&`. |
| TallyText.SpliceExample | connector/connector/tally_client.py:404-414 | The shortest member: `&&#4;#4;` becomes `&#4;`, which a second pass would remove. |
| LedgerGuids.CollectGuids | connector/connector/tally_client.py:1081-1092 | The loop over the ledgers: the dictionary holds the first GUID of each non-empty name, the set holds exactly the names with several GUID-bearing ledgers. |
| LedgerGuids.EnrichLedgerGuids | connector/connector/tally_client.py:1068-1108 | Every line gets what `Lookup` says; all other fields, the number and the order of rows and lines stay. |
| LedgerGuids.EnrichLines | connector/connector/tally_client.py:1096-1107 | The same for the lines of one row. |
| LedgerGuids.LookupIsUnique | connector/connector/tally_client.py:1069-1094 | A name gets a GUID if and only if it is not blank and exactly one GUID-bearing ledger has it, and then it is the GUID of that ledger. |
| LedgerGuids.LookupIgnoresOrder | connector/connector/tally_client.py:1081-1094 | Any permutation of the ledger list gives every name the same GUID. |
| CommandCache.IdempotencyCache.RecordInFlight | connector/connector/idempotency_cache.py:199-225 | Inserts an in-flight row; if the key is there it refuses and changes nothing. |
| CommandCache.IdempotencyCache.Settle | connector/connector/idempotency_cache.py:256-280 | Upserts a terminal state; an existing row keeps its hash and creation time. |
| CommandCache.IdempotencyCache.RecordCompleted | connector/connector/idempotency_cache.py:227-241 | Settles as completed. |
| CommandCache.IdempotencyCache.RecordFailed | connector/connector/idempotency_cache.py:243-254 | Settles as failed. |
| CommandCache.IdempotencyCache.DeleteForRetry | connector/connector/idempotency_cache.py:282-294 | Removes exactly the row of the key. |
| CommandCache.IdempotencyCache.CleanupStale | connector/connector/idempotency_cache.py:296-329 | Removes exactly the settled rows created before the cutoff, returns how many, never touches an in-flight row; a failing sweep changes nothing. |
| CommandProtocol.RetryableDespiteChange | connector/connector/tally_client.py:700-713 | Which import answers are retryable although their counter reports a change: exactly those with exceptions or an error line. |
| CommandProtocol.RunsAreAccountedFor | connector/connector/message_handlers.py:520-597 | In every run of deliveries, handler answers, sweeps and interruptions, for every key: executions = settles + retry deletions + interrupted runs + 1 if one is running, and settles = rows swept + 1 if the row is terminal. |
| CommandProtocol.RowsKeepTheirFirstAttempt | connector/connector/message_handlers.py:542-597 | In every run the in-flight insert is never refused, every row keeps the hash and the creation time of the insert that made it, and a terminal row holds a success or a final error. |
| CommandProtocol.TerminalRowsAnswerForGood | connector/connector/message_handlers.py:545-548 | From a terminal row on, until the sweep takes it: every delivery of the key is answered with the stored envelope, no handler runs, Tally is not changed and the row stays as it is, whatever else happens. |
| CommandProtocol.InFlightEndsOnlyByFinishing | connector/connector/idempotency_cache.py:296-329 | An in-flight row is changed or removed only by the end of a handler run for its own key; every sweep spares it. |
| CommandProtocol.AppliedAtMostOncePlusRisks | connector/connector/message_handlers.py:545-597 | In every run, without any assumption: Tally applies a command at most once plus once for every run that was retried or cut off although it had been applied, until its row is swept. |
| CommandProtocol.AtMostOnce | connector/connector/message_handlers.py:545-597 | If a retryable answer means that Tally changed nothing and no handler run of the key is cut off, Tally applies the command at most once, and once it has, the row says so or is about to. |
| CommandProtocol.AtMostOnceIff | connector/connector/message_handlers.py:545-597 | Exactly when, over all runs, at every moment and until the row is swept, Tally has applied a command at most once: if and only if Tally is never made to apply it after a run that it had applied was answered with a retryable error or cut off. |
| CommandProtocol.StaysOnceIff | connector/connector/message_handlers.py:545-597 | The same from any reachable state that has applied the command at most once. |
| CommandProtocol.CutOffRunIsRepeated | connector/connector/message_handlers.py:549-569 | The first way to a second application: a run that is cut off after Tally applied it is repeated on the next delivery. |
| CommandProtocol.RetriedRunIsRepeated | connector/connector/message_handlers.py:586-590 | The second way, without an interruption: every import answer that reports a change together with exceptions or an error line counts as retryable, its row is deleted, and the retry is applied again. |
| CommandProtocol.DispatchMutatingWithCache | connector/connector/message_handlers.py:520-597 | The coroutine with its four awaits, torn down at any of them, with the write of that moment carried out all the same or not: rows, reply and whether the handler ran are those of `Dispatched`; what that is for each outcome is proved in CommandAnswers. |
| CommandProtocol.RunAndSettle | connector/connector/message_handlers.py:573-597 | The handler and the terminal decision, `SettledRows` of the envelope; which outcomes are cached and which are forgotten is proved in CommandAnswers. |
| CommandProtocol.DispatchIsAttempt | connector/connector/message_handlers.py:520-597 | What the coroutine does is what the machine does for it: same rows, same reply, one execution or none. |
| CommandProtocol.SettleOrDelete | connector/connector/message_handlers.py:582-595 | Success is cached as completed, a retryable error deletes the row, any other error is cached as failed. |
| CommandProtocol.AttemptIsRun | connector/connector/ws_client.py:171-177 | Every dispatch, wherever the session tears it down, is a run of the machine, so all theorems about runs apply to it. |
| CommandAnswers.TallyErrors | connector/connector/message_handlers.py:464-499 | For every key without a settled row: an unreachable Tally, an error response, an ambiguous response and a wrong open company leave no row and are answered as retryable; a response that cannot be parsed, a rejected import and a period that is not covered are cached as failed. |
| CommandAnswers.HandlerErrorIsFinal | connector/connector/message_handlers.py:573-597 | An error that the handler returns is cached as failed and answered as not retryable. |
| CommandAnswers.SuccessIsCached | connector/connector/message_handlers.py:573-597 | A result is cached as completed and answered as a success. |
| CommandAnswers.ImportAnswers | connector/connector/tally_client.py:700-713 | From the counters of an import to the cache: success needs the expected change, no exception and no error line; a rejection needs no change and an exception; everything else leaves no row and may be retried. |
| CommandAnswers.ToTheEnd | connector/connector/message_handlers.py:520-597 | A dispatch that passes all its awaits ends in the same way wherever else it is cut and whatever lands. |
| CommandAnswers.CachedIsReplayed | connector/connector/message_handlers.py:545-548 | What was cached is replayed by every later dispatch: the same envelope, no handler run, no change, whatever hash and outcome it brings. |
| CommandAnswers.BareRowIsReplayed | connector/connector/message_handlers.py:545-548 | A settled row without a stored object is answered with an empty one. |
| CommandAnswers.ForgottenRunsAgain | connector/connector/message_handlers.py:549-597 | What was forgotten runs again, with a new row that has the new hash and time. |
| CommandAnswers.CutOffRunsAgain | connector/connector/message_handlers.py:549-569 | A run that was cut off leaves its in-flight row, and the next dispatch runs the handler on that row, whose hash and time stay. |
| CommandAnswers.OtherKeysStay | connector/connector/message_handlers.py:520-597 | A dispatch changes no row of another key. |
| CommandAnswers.SettledRow | connector/connector/idempotency_cache.py:256-280 | A settled row has the new status, payload and time; its hash and creation time are those of the attempt, or an empty hash and now if there was none. |
| CommandAnswers.SweepKeeps | connector/connector/idempotency_cache.py:296-329 | A sweep keeps every in-flight row and every row created in the last thirty days, unchanged, and nothing else. |
| CommandAnswers.ReplaysAreTheAnswer | connector/connector/message_handlers.py:545-597 | In every run, for every settled key: every later delivery until the sweep is answered with the very envelope that was sent last about it. |
| CommandLateWrites.DispatchInsertLands | connector/connector/message_handlers.py:569-571 | A dispatch that is cut off while its insert is under way, when the insert is carried out all the same, is a run of the machine with late writes. |
| CommandLateWrites.DispatchSettleLands | connector/connector/message_handlers.py:582-595 | The same when it is cut off while its answer is being settled. |
| CommandLateWrites.LandKeepsIff | connector/connector/message_handlers.py:582-595 | A cache write that lands after its session was torn down keeps everything promised of its key if and only if it finds nothing to do, or the key is not being handled and has no settled row. |
| CommandLateWrites.LateRunsAreAccountedFor | connector/connector/message_handlers.py:520-597 | In every run with writes that land late, as long as each lands harmlessly in that sense: executions and settles are accounted for, no in-flight insert is refused, every row keeps the hash and time of the write that made it, and applications are bounded by one plus the risks. |
| CommandLateWrites.TerminalRowsStay | connector/connector/message_handlers.py:545-548 | A settled row outlives every harmless late write. |
| CommandLateWrites.LateInsertConflicts | connector/connector/idempotency_cache.py:199-225 | A late insert between the lookup and the insert of the next delivery makes that insert fail. |
| CommandLateWrites.LateDeleteRepeats | connector/connector/idempotency_cache.py:282-294 | A late deletion after the retry was settled takes the settled row away, and the next delivery is applied once more. |
| CommandDispatch.DispatchCommand | connector/connector/message_handlers.py:382-461 | A command for another company, an unknown one or one with bad arguments asks neither Tally nor the cache; only a mutating command with a key uses the cache, and then as the coroutine does. |
| CommandDispatch.Routes | connector/connector/message_handlers.py:382-461 | Which way a command goes, in terms of what it says: a company other than the authorized ones, or the registered one if none are listed, is refused first, then an unknown command, then bad arguments; the cache is used exactly for mutating commands with a key that is not empty. |
| LedgerSync.LedgerService.UpsertFromSync | backend/app/services/ledger_service.py:328-478 | The bulk upsert on the table in place: rows and counters are those of `Sync`, with the stop for a GUID of another company; what the counters mean is `LedgerCounters.CountersAreExact`. |
| LedgerSync.LedgerService.ApplySyncUpdate | backend/app/services/ledger_service.py:480-520 | One row is rewritten; its name only if it differs and no other row of the company holds it; says whether anything changed. |
| LedgerSync.PassKeepsTheTable | backend/app/services/ledger_service.py:365-478 | After every payload row of every pass over any payload: GUIDs are unique, across companies too, normalized names and names are unique in each company, so the schema constraint never trips, and no row changes its GUID, opening balance or balance type and no other company changes at all. |
| LedgerSync.StepKeepsGuidsUniquePerCompany | backend/app/models/ledger.py:133-135 | The schema constraint on GUIDs is kept even when some GUID already occurs in two companies. |
| LedgerSync.NamesFollowNorms | backend/app/models/ledger.py:130-132 | The schema constraint on names follows from unique normalized names. |
| LedgerSync.CountersAddUp | backend/app/services/ledger_service.py:361-478 | The table grows by the created counter, every payload row is counted at most once, and zero created and updated means an unchanged table; the exact counters are in LedgerCounters. |
| LedgerCounters.CountersAreExact | backend/app/services/ledger_service.py:361-478 | Read off the tables of a pass alone: created is what the table grew by, updated is the number of payload rows that changed the table without making it longer, skipped is the number of those without a name, with a blank one, without a GUID, or with an unseen GUID and a name that is held; and the pass stops at the first unseen GUID with a free name that another company has. |
| LedgerCounters.UnchangedIff | backend/app/services/ledger_service.py:361-478 | Over distinct GUIDs, none of another company: the table is as it was if and only if nothing was created or updated. |
| LedgerCounters.RowDecides | backend/app/services/ledger_service.py:365-478 | What one payload row leads to, in terms of the table it finds: skipped, stopped, changed or created, each if and only if. |
| LedgerCounters.NewRowIs | backend/app/services/ledger_service.py:441-475 | A new row is active and has the payload's GUID, name, group and GSTIN, the normalized name, and an opening balance of zero on the debit side; it comes behind all the others, which stay. |
| LedgerSync.StepSparesOthers | backend/app/services/ledger_service.py:381-478 | A payload row about one GUID never takes its target name or its fields from another. |
| LedgerSync.StepServesItself | backend/app/services/ledger_service.py:381-478 | A payload row brings its own fields in line; if they were, the only change it can make is to reach its target name. |
| LedgerSync.WholePass | backend/app/services/ledger_service.py:329-478 | A pass over distinct GUIDs, none of another company: it does not stop, loses nothing reached, brings all fields in line, and, if they were in line, either changes nothing or brings strictly more GUIDs to their target names. |
| LedgerSync.SyncConverges | backend/app/services/ledger_service.py:329-478 | Re-running such a payload reaches a fixed point: at most |payload| + 1 passes change anything. |
| LedgerSync.FixpointsAreResolved | backend/app/services/ledger_service.py:329-520 | The fixed points, exactly: every payload row has its fields in line and its target name, or the name it wants is held by another row. |
| LedgerSync.OnePassIsNotEnough | backend/app/services/ledger_service.py:497-520 | One pass is not idempotent: with g1 named a and g2 named b, the payload g1 to b, g2 to c skips the first rename, and the second pass applies it. |
| LedgerOnePass.OnePassReachesAllIff | backend/app/services/ledger_service.py:329-520 | Said of the table and the payload before the pass: one pass brings every usable payload row to its target name if and only if the wanted names differ and every name that another row holds is held by the row of an earlier payload row. |
| LedgerOnePass.OnePassSuffices | backend/app/services/ledger_service.py:329-520 | Under that condition one pass reaches a fixed point. |
| LedgerOnePass.UnblockedReaches | backend/app/services/ledger_service.py:497-511 | A payload row whose wanted name no other row holds reaches it. |
| LedgerOnePass.BlockedFails | backend/app/services/ledger_service.py:497-520 | A payload row whose wanted name another row holds does not reach it. |
| HttpLease.IdempotencyHandler.Check | backend/app/core/idempotency.py:113-244 | Verdict, table and held row are those of `CheckRows`: missing and invalid keys, a new lock, misuse on another endpoint, a fresh lock, the takeover of a stale one, another body, and the replay; each case is stated by itself in HttpAnswers. |
| HttpLease.IdempotencyHandler.StoreResponse | backend/app/core/idempotency.py:246-260 | Stamps the response and the time on the held row and nothing else; without a row nothing happens. |
| HttpLease.TimelyRunsAreSafe | backend/app/core/idempotency.py:113-260 | In every run in which holders store within the lock timeout, and once, or never: at most one live holder per company and key, which owns its row; every row is finished at most once, with the hash and endpoint of the request that was answered; every replay ever sent is the response stored for a request with the same key, endpoint and hash. |
| HttpLease.LockIsFree | backend/app/core/idempotency.py:193-212 | A check that takes a lock finds no live holder of that row. |
| HttpAnswers.ProceedTakesLock | backend/app/core/idempotency.py:147-212 | A request with a key that may proceed has taken the lock of its row, at this time, for its own body and endpoint, and the row is unfinished. |
| HttpAnswers.LiveHolderKeepsOthersOut | backend/app/core/idempotency.py:192-206 | In every timely run, while the holder of a row has not stored and its 60 seconds are not over, every other check with that key, verb and path is answered `InProgress` and changes nothing. |
| HttpAnswers.StartsAreApart | backend/app/core/idempotency.py:147-212 | In every run, timely or not: two requests with the same key that both proceed do so at least 60 seconds apart. |
| HttpAnswers.Unfinished | backend/app/core/idempotency.py:192-212 | On an unfinished row a request waits if the lock is younger than 60 seconds; otherwise it takes over, and only the time of the lock and the hash change. |
| HttpAnswers.Finished | backend/app/core/idempotency.py:214-244 | On a finished row another body is refused with the time of completion; the same body gets the stored status, body and headers, with the mark of a replay. |
| HttpAnswers.OtherEndpoint | backend/app/core/idempotency.py:174-191 | A key is refused as misused if and only if its row has another verb or path, which the refusal names; nothing changes. |
| HttpAnswers.FirstRequest | backend/app/core/idempotency.py:147-172 | The first request with a key makes its row, with user, verb, path, hash, lock time and an expiry 24 hours later, and changes no other row. |
| HttpAnswers.WithoutKey | backend/app/core/idempotency.py:123-135 | Without a key, or with an empty one, a check is refused exactly where a key is required, and never touches the table. |
| HttpAnswers.InvalidKeyIff | backend/app/core/idempotency.py:46-50 | A key is refused as invalid if and only if it is shorter than 8, longer than 255, or has a character that is not graphic ASCII. |
| HttpAnswers.StoreWritesOnly | backend/app/core/idempotency.py:246-260 | A store writes the response and its time on one row and nothing else. |
| HttpLease.StoreIsTruthfulIff | backend/app/core/idempotency.py:246-260 | Without any assumption on time: a store keeps rows and history consistent if and only if the row is still unfinished and still has the hash of the request that is answered. |
| HttpLease.RunsAreTruthfulIff | backend/app/core/idempotency.py:113-260 | Over every run with a clock that does not run backwards, however late the stores: rows and history agree at the end if and only if every store found its row unfinished and with the hash of the request it answered. |
| HttpLease.FalseForGood | backend/app/core/idempotency.py:246-260 | Rows and history that once disagree never agree again. |
| HttpLease.FinishedForGood | backend/app/core/idempotency.py:113-260 | In every timely future a finished row is never written again. |
| HttpLease.LaterRequests | backend/app/core/idempotency.py:174-244 | In every timely future every request with the key of a stored response gets that response if endpoint and hash agree, and the right refusal otherwise; it never proceeds and changes nothing. |
| HttpLease.LateStoreMixesUp | backend/app/core/idempotency.py:207-260 | The time limit is needed: a holder that stores after it was taken over overwrites the response, and the other request is then replayed an answer that was made for a different body. |
| VoucherBooks.VoucherService.ValidateEntries | backend/app/services/voucher_service.py:233-254 | The two sums by loop, and the refusal if debits differ from credits or from the total. |
| VoucherBooks.VoucherService.WriteEntries | backend/app/services/voucher_service.py:201-218 | The entry rows are the lines of the request, in order; what the constraints of the table do not allow is refused. |
| VoucherBooks.VoucherService.Create | backend/app/services/voucher_service.py:129-227 | Refuses for the first reason that applies, in the order of the checks, the constraints of the database last, and then leaves the books alone; otherwise appends exactly the new voucher with all that the request says. The reasons and the rules of the types are stated by themselves in VoucherRules. |
| VoucherRules.CashRules | backend/app/services/voucher_service.py:881-909 | For drafts that pass the earlier checks, with neat groups: a Receipt is refused for its type if and only if nothing is debited to cash, and a Payment if and only if nothing is credited to cash. |
| VoucherRules.TransferRules | backend/app/services/voucher_service.py:861-925 | A Contra is refused for its type if and only if cash debited or cash credited differs from its total; a Journal if and only if any cash is debited or credited. |
| VoucherRules.PartyRules | backend/app/services/voucher_service.py:803-958 | A Sales voucher or a Credit Note is refused for its type if and only if nothing stands on Sundry Debtors, a Purchase or a Debit Note if and only if nothing stands on Sundry Creditors; whatever the groups look like. |
| VoucherRules.ReasonsInOrder | backend/app/services/voucher_service.py:129-227 | The reason of a refusal is the first of the checks that fails, and a draft that passes them all is taken; every check is stated in terms of the lines, the ledgers and the fields. |
| VoucherRules.TakenDraft | backend/app/services/voucher_service.py:129-227 | A draft that is taken becomes the last voucher with everything it says, waits for Tally without stamps, and is Optional if and only if that is forced or one of its ledgers was made on the phone and is not confirmed. |
| VoucherRules.RefusedDraft | backend/app/services/voucher_service.py:129-227 | A refused draft changes nothing. |
| VoucherRules.RunsVet | backend/app/services/voucher_service.py:129-749 | In every run with fixed ledgers and the sync check on: no voucher uses a ledger that Tally does not know and the phone did not make, and a Regular voucher that nobody approved uses no unconfirmed one. |
| VoucherRules.OutOfReach | backend/app/services/voucher_service.py:336-749 | Vouchers of other companies and vouchers that do not exist are changed by no call. |
| VoucherRules.UpdateWrites | backend/app/services/voucher_service.py:336-368 | An update writes what was sent for narration and reference, also an empty value, and nothing else; a cancelled voucher stays. |
| VoucherRules.CancelIsForGood | backend/app/services/voucher_service.py:374-394 | A cancelled voucher counts neither as cash nor as pending any more, whatever follows. |
| VoucherRules.ApprovalTakesEffect | backend/app/services/voucher_service.py:527-590 | The connector is asked for exactly the Optional vouchers that are neither cancelled nor rejected; if it agrees, the voucher is Regular, posted, stamped and counts as cash; otherwise nothing changes. |
| VoucherRules.RejectionTakesEffect | backend/app/services/voucher_service.py:689-749 | The same for a rejection: the voucher is rejected and stamped and counts neither as cash nor as pending. |
| VoucherRules.RejectionIsForGood | backend/app/services/voucher_service.py:689-749 | It stays so with its stamp, whatever follows. |
| VoucherRules.AnswersAreReported | backend/app/services/voucher_service.py:559-573 | A connector that refuses and one that is not there are reported as what they are. |
| VoucherRules.QueueMoves | backend/app/services/tally/voucher_reenqueue.py:289-347 | Posting and expiry touch queued vouchers alone, and only their status. |
| VoucherRules.ExpiryIsForGood | backend/app/services/tally/voucher_reenqueue.py:289-347 | A Regular voucher that has expired never moves cash again, whatever follows. |
| VoucherBooks.VoucherService.Update | backend/app/services/voucher_service.py:336-368 | Only narration and reference change; immutable fields, unknown and cancelled vouchers are refused. |
| VoucherBooks.VoucherService.Cancel | backend/app/services/voucher_service.py:374-394 | The status becomes cancelled; unknown and already cancelled vouchers are refused. |
| VoucherBooks.VoucherService.ApproveToRegular | backend/app/services/voucher_service.py:527-590 | As one step: refused, without effect, failing on the connector, or Regular, posted and stamped. |
| VoucherBooks.VoucherService.RejectOptional | backend/app/services/voucher_service.py:689-749 | As one step: refused, failing on the connector, or rejected and stamped. |
| VoucherBooks.RunsKeepBooks | backend/app/services/voucher_service.py:129-749 | Over every run of create, update, cancel, approve, reject, posting and expiry: debits = credits = total for every voucher; no voucher is both approved and rejected; entries, total, type and date never change; a voucher never becomes Optional again; cancelled is for good; rejected leads only to cancelled. |
| VoucherBooks.ChangeIsAllowed | backend/app/services/voucher_service.py:336-749 | Every single event on a consistent voucher is one of the allowed developments. |
| VoucherBooks.ApproveWriteIsAllowedIff | backend/app/services/voucher_service.py:559-573 | With the wait for the connector between check and write: the write of an approval is harmless if and only if the voucher is by then neither cancelled nor rejected and not approved by somebody else. |
| VoucherBooks.RejectWriteIsAllowedIff | backend/app/services/voucher_service.py:722-736 | The same for a rejection: not cancelled, still Optional, and not rejected by somebody else. |
| VoucherRaces.CallIsWindow | backend/app/services/voucher_service.py:527-590 | A whole call is a window that opens with its check and writes with nothing in between. |
| VoucherRaces.AskOpensIff | backend/app/services/voucher_service.py:544-558 | A check opens a window if and only if the voucher is the company's, Optional, and neither cancelled nor rejected; it writes nothing. |
| VoucherRaces.OneEndPerCall | backend/app/services/voucher_service.py:559-590 | A call writes once or fails once: whatever follows, its window changes nothing any more. |
| VoucherRaces.FailureWritesNothing | backend/app/services/voucher_service.py:559-573 | A failure of the connector leaves the books alone. |
| VoucherRaces.NeverBothIff | backend/app/services/voucher_service.py:544-736 | Over every overlap of approvals and rejections and everything else: no voucher ends up both approved and rejected if and only if no call writes after one of the other kind has written to the voucher since its check. |
| VoucherRaces.SoundBooksAreGuarded | backend/app/services/voucher_service.py:544-736 | Books that came about by whole calls are a start for that theorem. |
| VoucherRaces.BothStays | backend/app/services/voucher_service.py:559-736 | A voucher with both stamps keeps both, whatever follows. |
| VoucherRaces.CancelledStaysIff | backend/app/services/voucher_service.py:544-736 | Over every overlap: no voucher ever leaves cancelled if and only if no write comes to a voucher that was cancelled since the check of its call. |
| VoucherRaces.NeverOptionalAgain | backend/app/services/voucher_service.py:544-736 | However calls overlap, a Regular voucher never becomes Optional. |
| VoucherRaces.BalanceStays | backend/app/services/voucher_service.py:129-736 | However calls overlap, debits, credits and total of every voucher agree. |
| VoucherRaces.BothCommit | backend/app/services/voucher_service.py:544-736 | Two overlapping windows on a posted Optional voucher: both checks pass, both writes follow, and it ends up approved and rejected. |
| TrialBalance.LinesAddUp | backend/app/services/voucher_service.py:233-254 | Ledger by ledger, the signed lines of a voucher add up to its debits less its credits. |
| TrialBalance.FilteredBooksBalance | backend/app/services/voucher_service.py:233-254 | For every selection of vouchers from sound books the balances of all ledgers add up to zero. |
| TrialBalance.EveryReportBalances | backend/app/services/voucher_service.py:129-749 | After any run and for every selection of vouchers, the balances of all ledgers add up to zero. |
| VoucherGroups.CashOnDashboardIff | backend/app/services/dashboard_service.py:328 | The dashboard counts a ledger as cash if and only if the voucher rules do and its group, blanks aside, has no other white space at its ends. |
| VoucherGroups.TabsDiffer | backend/app/services/voucher_groups.py:17-26 | A tab before `Bank Accounts` is enough: the rules take the ledger for cash and the dashboard does not. |
| VoucherGroups.GroupsAre | backend/app/services/voucher_groups.py:17-39 | The names that count as bank or cash, as debtors and as creditors, in small letters and without white space around them. |
| CashMetrics.RunsFollowRules | backend/app/services/voucher_service.py:803-958 | In every run with fixed ledgers every voucher satisfies the rule of its type, balances and uses only ledgers of its company. |
| CashMetrics.RangeIsSumOfParts | backend/app/services/dashboard_service.py:255-338 | However a range of dates is cut into consecutive parts, each of the four metrics is the sum over the parts. |
| CashReference.DebitsAreCashIn | backend/app/services/dashboard_service.py:301-338 | If the live Regular vouchers of the range debit cash and credit something else, cash in is the sum of their totals and cash out is 0. |
| CashReference.CreditsAreCashOut | backend/app/services/dashboard_service.py:301-338 | If they credit cash and debit something else, cash out is the sum of their totals and cash in is 0. |
| CashReference.NetCashIsCashBalance | backend/app/services/dashboard_service.py:255-338 | For all books: cash in less cash out of a range is the sum of the balances, debits positive, of the company's cash ledgers over the posted and queued Regular vouchers of the range. |
| CashReference.CountsAreSizes | backend/app/services/dashboard_service.py:255-300 | The two counts are the numbers of vouchers in the range that are not cancelled, and that are Optional, not approved, not cancelled and not rejected. |
| CashMetrics.ContraMovesItsTotalIff | backend/app/services/voucher_service.py:861-879 | An accepted Contra adds exactly its total to cash in and to cash out if and only if none of its groups has white space other than blanks at its ends. |
| CashMetrics.JournalMovesNothing | backend/app/services/voucher_service.py:912-925 | An accepted Journal adds nothing to cash in or cash out. |
| CashMetrics.NetCashComesFromOthers | backend/app/services/dashboard_service.py:301-338 | Over any books accepted by the rules, with neat Contra groups, net cash of a range is that of the vouchers that are neither Contra nor Journal. |
| Ownership.CompanyService.Create | backend/app/services/company_service.py:61-106 | A taken GSTIN is refused; otherwise a company is added and the caller is its owner. |
| Ownership.CompanyService.AddMember | backend/app/services/company_service.py:235-295 | Refusals in order, otherwise exactly one membership is added. |
| Ownership.CompanyService.SetMemberRole | backend/app/services/company_service.py:314-356 | Refusals in order, the last owner is not demoted, otherwise exactly one role changes. |
| Ownership.CompanyService.RemoveMember | backend/app/services/company_service.py:358-391 | Refusals in order, the last owner is not removed, otherwise exactly one membership goes. |
| OwnershipRules.OwnersChange | backend/app/services/company_service.py:314-356 | An owner changes any role of a member unless the company would be left without an owner. |
| OwnershipRules.OwnersRemove | backend/app/services/company_service.py:358-391 | An owner removes any member unless the company would be left without an owner. |
| OwnershipRules.OwnersAdd | backend/app/services/company_service.py:235-295 | An owner adds whoever is registered and not yet a member, with the role that was asked for; the two refusals are told apart. |
| OwnershipRules.OnlyOwnersManage | backend/app/services/company_service.py:235-405 | To those who are not members the company does not exist, members who are not owners are refused, and both change nothing. |
| OwnershipRules.CreateIs | backend/app/services/company_service.py:61-106 | A GSTIN is refused if and only if some company has it; a new company has its maker as its only member, an owner. |
| OwnershipRules.GstinsStayUnique | backend/app/services/company_service.py:61-106 | In every run no two companies have the same GSTIN. |
| OwnershipRules.RequestRefusedIff | backend/app/services/account_lifecycle_service.py:98-199 | A deletion is refused if and only if some company would be left without an owner by the user's leaving. |
| OwnershipRules.ThirtyDays | backend/app/services/account_lifecycle_service.py:138-199 | A request that is let through is pending, and the worker takes it up from thirty days later on and not before. |
| OwnershipRules.RunsKeepOnePending | backend/app/services/account_lifecycle_service.py:138-240 | In every run no user has two pending requests. |
| OwnershipRules.SecondRequest | backend/app/services/account_lifecycle_service.py:138-199 | A second request while one is pending changes nothing and is no error. |
| OwnershipRules.WithdrawnIsGone | backend/app/services/account_lifecycle_service.py:202-240 | A withdrawn request is neither pending nor ever due, and no other request and no membership changes. |
| OwnershipRules.ErasedAccount | backend/app/services/account_lifecycle_service.py:328-354 | An erased account is inactive, has no password and no personal data, and nobody else's account or membership changes. |
| Ownership.SoleOwnerCompanies | backend/app/services/account_lifecycle_service.py:98-135 | The loop lists, each once, exactly the companies whose only owner is the user. |
| Ownership.OpenRequest | backend/app/services/account_lifecycle_service.py:138-199 | A pending request is found again; a sole owner is refused; otherwise a request with the grace period is added. |
| Ownership.WithdrawRequest | backend/app/services/account_lifecycle_service.py:202-240 | The pending request is withdrawn; without one the call is refused. |
| Ownership.ProcessDueDeletion | backend/app/services/account_lifecycle_service.py:270-359 | An unknown request is an error; one still in its grace period removes the memberships of its user and anonymises the user, or fails if there is no such user; any other is left alone. |
| Ownership.ErasureForgets | backend/app/services/account_lifecycle_service.py:328-354 | Nothing of an erased profile is left: whatever it was, the outcome is the same, and no membership of the user remains. |
| Ownership.LastOwnerIff | backend/app/services/company_service.py:397-405 | By the count of owners an owner is the last one if and only if no other seat of the company is an owner's. |
| Ownership.StepKeepsOwnedIff | backend/app/services/company_service.py:235-405 | A step keeps every company owned if and only if it is not the processing of a request whose user is by then a sole owner. |
| Ownership.OwnerlessStays | backend/app/services/company_service.py:242-246 | Only owners make owners, so a company without one stays without one. |
| Ownership.CompaniesKeepOwnersIff | backend/app/services/account_lifecycle_service.py:98-403 | Over every run of creating, adding, changing, removing and erasing: every company has an owner at the end if and only if every request carried out still passed the sole-owner test when it was carried out. |
| Ownership.MembersAloneKeepOwners | backend/app/services/company_service.py:314-405 | Over every run without erasures every company keeps an owner. |
| Ownership.BothOwnersLeave | backend/app/services/account_lifecycle_service.py:164-332 | Two co-owners both ask, each passes the test, both requests are carried out, and the company has nobody. |
| DeletionWorker.DueIsRight | backend/app/services/account_lifecycle_service.py:243-260 | The list of the worker holds exactly the requests that are due, each once, the earliest end first. |
| DeletionWorker.MarkFailed | backend/app/services/account_lifecycle_service.py:394-402 | The request, if there is one, becomes failed. |
| DeletionWorker.ProcessDueDeletions | backend/app/services/account_lifecycle_service.py:362-403 | The loop over the due requests works them off in order and counts those that commit. |
| DeletionWorker.WorkIsRun | backend/app/services/account_lifecycle_service.py:362-403 | What the worker does is a run of processings and failures, so the theorems on owners are about it. |
| DeletionWorker.WorkerOutcome | backend/app/services/account_lifecycle_service.py:362-403 | After the worker every due request whose processing commits is completed, or failed if its user is gone; one that breaks is failed; every other request is as it was. |
| DeletionWorker.ReportedCount | backend/app/services/account_lifecycle_service.py:362-403 | The number that the worker reports is the number of due requests whose processing commits. |
| CompanyListing.RestAfterRow | backend/app/services/company_service.py:200-215 | The keyset filter with the cursor of a row leaves exactly the rows after it. |
| CompanyListing.PageAdvances | backend/app/services/company_service.py:200-229 | A page is the next rows of what is left, and its cursor, if any, leaves the others; there is one exactly when the page is full and the total exceeds the limit. |
| CompanyListing.PagesCoverTheRest | backend/app/services/company_service.py:182-229 | From any cursor, following the next cursors ends, and the pages together are the rows beyond the cursor, each once and in order. |
| CompanyListing.PagesCoverTheListing | backend/app/services/company_service.py:182-229 | From the start the pages are the whole listing; a total of q times the limit and r more takes q + 1 pages, also when r is 0, and one page if it fits. |
| CompanyListing.NoRepeatsAcrossChanges | backend/app/services/company_service.py:200-229 | Even when companies come and go between two calls, every row of the second page is older than every row of the first, or as old with a smaller id. |
| EnvFile.File.ParseLine | connector/connector/enrollment.py:89-93 | One line: blank, comment or without an equals sign, or a binding stripped on both sides. |
| EnvFile.IgnoredIff | connector/connector/enrollment.py:89-92 | A line binds nothing if and only if it is blank, begins with a hash after white space, or has no equals sign. |
| EnvFile.ParseIs | connector/connector/enrollment.py:89-93 | Any other line is cut at its first equals sign, and the white space around both parts goes. |
| EnvFile.StripPadded | connector/connector/enrollment.py:90-93 | Stripping takes off the white space at the ends and nothing else. |
| EnvFile.AnyBreakEndsALine | connector/connector/enrollment.py:89 | A line ends at the first of the ten line boundaries; a carriage return and a line feed are one. |
| EnvFile.BreaksAre | connector/connector/enrollment.py:89 | The ten boundaries. |
| EnvFile.File.PutLines | connector/connector/enrollment.py:88-94 | The loop over the lines fills the dictionary in order; a later binding of a key replaces the earlier one in its place. |
| EnvFile.File.ReadEnvFile | connector/connector/enrollment.py:78-94 | The dictionary of the file; an absent file has none. |
| EnvFile.File.WriteEnvFile | connector/connector/enrollment.py:97-108 | The file becomes the printed merge of its dictionary with the updates. |
| EnvFile.ReadIsValid | connector/connector/enrollment.py:88-94 | Whatever is in the file, what is read is a dictionary of bindings with trimmed one-line keys and values, whose keys have no equals sign and no leading hash. |
| EnvFile.ReadPrint | connector/connector/enrollment.py:78-108 | Printing a dictionary of such bindings and reading it back gives the same dictionary, in the same order. |
| EnvFile.ReadBackIff | connector/connector/enrollment.py:97-108 | For every file: reading back what was written gives the old bindings overridden by the updates if and only if all updates are such bindings. |
| EnvFile.WrittenLines | connector/connector/enrollment.py:97-108 | With valid updates the written file has exactly one line `key=value` for each binding of the merge, in order. |
| EnvFile.NothingIsDropped | connector/connector/enrollment.py:100-108 | A binding whose key is not updated is read back as it was. |
| EnvFile.WritingAgainChangesNothing | connector/connector/enrollment.py:97-108 | Writing the same updates again leaves the file as it is. |

## Left out

- CommandProtocol.RowsKeepTheirFirstAttempt: in these runs an interruption drops the cache write of that moment; writes that go on and land later are in CommandLateWrites, with the exact condition under which they do no harm.
- CommandProtocol.DispatchMutatingWithCache: a handler that raises something other than a Tally error ends the session, which is an interruption; the JSON form of the stored envelope is taken to read back as it was written.
- CommandProtocol.RetryableDespiteChange: the error of a response that cannot be parsed comes from the XML parser, which is not part of this model.
- TallyText.SanitizeKeepsMeaning: comments and CDATA sections, in which `&` opens no reference; and the limit of 4300 digits that Python sets on a decimal number.
- LedgerSync.LedgerService.UpsertFromSync: payload rows that are not dictionaries with text names, time stamps and audit rows.
- HttpLease.IdempotencyHandler.Check: the canonical form of a body and its hash.
- VoucherBooks.RunsKeepBooks: vouchers imported from Tally, which are not checked for balance and whose total may be rewritten without their entries.
- VoucherRaces.CancelledStaysIff: a write is taken to write every column that it assigns; the object mapper leaves out a column whose value it believes unchanged, which can only affect the status.
- CashMetrics.ContraMovesItsTotalIff: lower-casing in Python and in the database is taken to be the same function.
- DeletionWorker.ProcessDueDeletions: whether the transaction of a request commits, conflicts or breaks is up to the database; device tokens, idempotency keys, time stamps and the text of a failure are not modelled.
- Ownership.CompanyService.AddMember: finding a user by the address is a lookup whose result is given.
- CompanyListing.PageAdvances: the base64 text of a cursor; a text that does not decode is the cursor `Start`.
- EnvFile.File.WriteEnvFile: encodings and the platform's line ends, which reading undoes.
- HTTP, WebSocket, SQLite, SQLAlchemy and Celery mechanics; the XML parser and the XML builders.
- The voucher and ledger dispatchers, the connector registry and the re-enqueue sweep; what they do to a voucher's status is an arbitrary event.
- Alerts, onboarding items, audit snapshots, enrollment codes and other reports: they would add only easy members.
- The mobile app, API routes, schemas, migrations and installers.
