# Verification of the market analytics services

A Dafny model of the stateful cores of the analytics system, with proofs. `dafny verify dfyconfig.toml`
checks all of it.

## What is modelled

**The streaming OHLCV aggregator** (`services/preprocessor`) is modelled on three levels that are proved
to fit together.

1. *One cell*, a symbol at one interval, is a state machine (`Cells`): the live bar, the stored copies, and
   the log of what the sinks were handed. Its events are a tick, a sweep, `FlushAll`, a crash, and the expiry
   of a key; each carries the answers of the sinks and of the store. `Orderly`, `Recovery` and `Rollup` prove
   the results about whole runs here.
2. *The system* (`Aggregator`) holds all cells over one store with string keys. Key
   injectivity (`Keys`) makes every run of the system, seen from a cell, a run of that cell alone.
   `Runs` expands the calls of the program (`Process`, a sweep, `FlushAll`, a restart) into events, and
   `Guarantees` states the cell results for the system.
3. *The heap* (`Manager`) is the program: candle objects owned by nested maps, sinks, the storage adapter,
   and the methods of the manager with their loops. Every method is proved to perform the matching run of
   level 2, and to keep the ownership of the objects. A candle handed to a sink leaves the manager's
   objects, the log of handed objects only grows, and each object in it still has the value it was handed
   with.

Time is a whole number of nanoseconds since the zero time, prices and volumes are reals. `Calendar` proves
which date and time of the day an instant has in the text of a key. The clock, the sinks and the store are
nondeterministic.

**The query rewriter** (`query-service`): `PrepareQuery` is the loop over an arbitrary map iteration order.
A lexer fixes what a query means by name and by position, replacement is proved to be substitution of
tokens, and the main theorem is an equivalence. `SafeSelect` is the filter in front of it, and
`FilterWords` says word by word what the filter accepts.

**Keyset pagination** (`analytics-api`) over the write-once candle table, while it grows. `EndToEnd` joins it to
the aggregator: what a client reads page by page is the batch result of the ticks.

**Refresh-token rotation** (`auth`): the token table, the handlers as methods over it, and the chains of
tokens in every run. `TokenOutcomes` spells out what each call does, and `TokenOwners` whose tokens a run
signs. The table of the migration does not make the JTI unique and a retried login may store
a token twice, so rows may have copies.

**The gateway's token cache** with the middleware in front of the auth service.

**The collector's pipeline**: reader, forwarder and router over two bounded channels, in any interleaving
of their atomic steps.

### Hypotheses and findings

- *Orderly* runs (`Orderly`, `Runs`): the clock readings inside `Process` never go back, and each lies in the
  finest window of its tick. A sweep may read its clock early, since the program reads it before it takes the
  lock. Batch equality needs nothing of the sinks or of the store, because a failed flush still drops the bar
  from memory and nothing is restored without a crash.
- `NewManager` accepts a repeated interval, and each repetition counts every tick once more
  (`Runs.TickMultiplicity`); system theorems ask for distinct intervals.
- A window survives refusing sinks and crashes, up to and including the final `FlushAll`, as long as saves
  succeed and each load that finds a copy does; the one way to lose it is that the store drops its key after
  the time to live, which is two durations from the last save.
- The tick that triggers a restore is not folded into the restored bar; `Cells.VolumeConserved` and
  `Recovery.NoWindowLost` speak of the counted ticks.
- The rewriter changes the meaning exactly if a key is a proper prefix of a name in the query, or a `$n` of
  the query is an argument position; both have concrete examples that the filter accepts.
- A token in the very instant of its expiry is still accepted from the cache, although the auth service
  already refuses it, and a hit carries the metadata of the request that filled its entry.
  `JwtCache.AnswerExact` is the exact condition, with examples of both.
- A refreshed token can be refreshed again exactly if its revocation was not applied
  (`TokenChains.RefreshAgain`); the program only logs that failure.
- A refresh inserts under the JTI in every attempt, so an insert that was applied but not acknowledged makes
  all later attempts fail: `TokenOutcomes.RefreshOutcome` succeeds only if the first applied attempt is
  acknowledged, although the old token is revoked by then.
- `QueryCandles` excludes both ends of the range, although the comment of the request says the start is
  included; the model follows the code.

## Model

| member | source | states |
|---|---|---|
| Intervals.DurationTable | common/interval/interval.go:40-47 | exactly six names are known, and these are their lengths |
| Intervals.AlignWindow | services/preprocessor/internal/aggregator/types.go:45-52 | the aligned instant is the one multiple of the length in the window that ends with the instant |
| Intervals.DurationsDivide | common/interval/interval.go:40-47 | of two table durations the smaller divides the larger |
| Intervals.WindowsNest | services/preprocessor/internal/aggregator/types.go:45-52 | aligning to a fine and then to a coarse window is aligning to the coarse one |
| Bars.StorageRoundTrip | services/preprocessor/internal/storage/redis/adapter.go:64-74 | storing and loading a bar loses nothing but the Complete mark |
| Bars.NewBarOk | services/preprocessor/internal/aggregator/candle.go:35-60 | a new bar is a valid bar on its interval's grid, holds its tick's instant, is open, and has the tick's price four times and its volume |
| Bars.UpdateSummary | services/preprocessor/internal/aggregator/candle.go:17-28 | folding a tick into a summary of ticks gives the summary of one tick more: first, highest, lowest, last price and total volume |
| Keys.KeyInjective | services/preprocessor/internal/storage/redis/adapter.go:31-32 | different symbols, intervals or starts never share a key, even if symbols contain colons |
| Keys.KeyAgreement | services/preprocessor/internal/storage/redis/adapter.go:48-52 | every instant of a bar's window leads to the key the bar was saved under |
| Calendar.DateOfDay | services/preprocessor/internal/storage/redis/adapter.go:31-32 | for every year, month and day of the Gregorian calendar, the day with that date's number is written as that year, month and day |
| Calendar.KeyText | services/preprocessor/internal/storage/redis/adapter.go:31-32 | up to the year 9999 a key reads `ohlcv:symbol:interval:YYYY-MM-DDThh:mm:ssZ`, digit by digit, for the date and the time of the day of the start |
| Calendar.SavedText | services/preprocessor/internal/storage/redis/adapter.go:28-43 | an applied save puts the fields of the bar under that text, for exactly two durations from the clock reading, and changes no other key |
| Cells.RunKeepsWellFormed | services/preprocessor/internal/aggregator/manager.go:65-166 | in every run with crashes, failures and expiry, live, stored and handed bars have opening and closing price between low and high, aligned start, end one duration later, and the names of their cell; live bars are open, handed bars complete |
| Cells.RunKeepsMirror | services/preprocessor/internal/aggregator/manager.go:81-113 | without failures and crashes the store holds exactly the live bar, with equal contents, and no tick ever restores |
| Cells.VolumeConserved | services/preprocessor/internal/aggregator/manager.go:77-114 | in every run: handed plus live volume is what the start held, plus counted ticks, plus restored volume, minus volume lost in crashes |
| Cells.AllCounted | services/preprocessor/internal/aggregator/manager.go:77-114 | without restores every tick is counted and nothing is restored |
| Cells.TicksPartitioned | services/preprocessor/internal/aggregator/manager.go:77-114 | without crashes and restores, for ticks in any order, the bars summarise consecutive blocks of the ticks that join to all the ticks: each tick is in exactly one bar |
| Orderly.CompleteRun | services/preprocessor/internal/aggregator/manager.go:65-199 | an orderly run without crashes never restores, and keeps a bar for the window of every tick |
| Orderly.StreamingRefinesBatch | services/preprocessor/internal/aggregator/manager.go:65-199 | the bars handed over in an orderly run ended by FlushAll are the batch result: one complete bar per window with ticks, ascending, each the summary of its window's ticks |
| Orderly.BatchUnique | services/preprocessor/internal/aggregator/candle.go:17-60 | the batch result of given ticks is unique |
| Recovery.NoWindowLostAtClose | services/preprocessor/internal/aggregator/manager.go:120-166 | also in a run that ends with FlushAll and refusing sinks, nothing stays live and each window with a counted tick was accepted by every sink or is still stored, with its final values, under the same one exception |
| Recovery.NoWindowLost | services/preprocessor/internal/aggregator/manager.go:146-166 | each window with a counted tick is live, accepted by every sink, or still stored, with its final values, unless a step of the run really dropped its stored key after its time to live |
| Recovery.HandedFinal | services/preprocessor/internal/aggregator/manager.go:120-166 | with crashes and failures anywhere, up to and including the final FlushAll, each window is handed over at most once, ascending, complete, with the values of all its counted ticks |
| Recovery.SavesSuffice | services/preprocessor/internal/aggregator/manager.go:81-113 | without crashes no tick ever finds a copy to load, so only the saves have to succeed |
| Recovery.CrashRecovery | services/preprocessor/internal/aggregator/manager.go:81-98 | after a save let anything happen, crashes included, that neither saves the window again nor drops its key; then the first tick of the window brings back exactly the saved bar, open and without that tick. The key lives at least one duration past the bar's end |
| Aggregator.CellsAreIndependent | services/preprocessor/internal/aggregator/manager.go:65-199 | any run of the system, seen from one symbol and interval, is a run of that cell alone |
| Aggregator.SystemWellFormed | services/preprocessor/internal/aggregator/manager.go:65-199 | in every run of the system, memory, store and sink log are well formed together in every cell |
| Runs.TickMultiplicity | services/preprocessor/internal/aggregator/manager.go:53-58 | a call of Process counts its tick in a cell as often as the interval is configured |
| Runs.OpsAtCell | services/preprocessor/internal/aggregator/manager.go:65-199 | an orderly run of calls is an orderly run of each cell, with exactly the ticks of the cell's symbol |
| Runs.StreamingRefinesBatchSystem | services/preprocessor/internal/aggregator/manager.go:65-199 | for every configured interval and every symbol, the bars the sinks received are the batch result of the symbol's ticks, and nothing stays live |
| Rollup.FineInCoarse | services/preprocessor/internal/aggregator/types.go:45-52 | the ticks of a fine window are picked equally from all ticks or from those of its coarse window |
| Rollup.RollsUp | services/preprocessor/internal/aggregator/candle.go:17-60 | a coarse batch bar is the ordered merge of the fine batch bars inside its window |
| Rollup.RollsUpSystem | services/preprocessor/internal/aggregator/manager.go:65-199 | for any two configured intervals the coarser bars that the sinks received are the merges of the finer ones |
| Guarantees.PassExact | services/preprocessor/internal/aggregator/manager.go:183-199 | in any map order and whatever the sinks answer, a sweep hands over each ended bar once, drops exactly those, and leaves the others as they were |
| Guarantees.StoreMirrorsMemory | services/preprocessor/internal/aggregator/manager.go:81-113 | without failures and crashes the keys in the store are exactly those of the live bars, with equal contents, for ticks in any order, and no tick restores |
| Guarantees.LedgerBalances | services/preprocessor/internal/aggregator/manager.go:77-114 | the volume ledger of each symbol and interval balances in every run of the system |
| Guarantees.SystemCrashRecovery | services/preprocessor/internal/storage/redis/adapter.go:45-75 | the same in the system, with any events of other cells before, between and after the crashes |
| Guarantees.ProcessRecovers | services/preprocessor/internal/aggregator/manager.go:77-114 | after a call of Process and a crash, the symbol's next tick brings back the bar of every configured interval whose own save and load took effect, whatever the others did |
| Guarantees.NoWindowLostSystem | services/preprocessor/internal/aggregator/multisink.go:21-34 | no window is lost in any events of any cells, with crashes anywhere, also inside a call of Process, and failing sinks, unless the store really dropped its key after the time to live |
| Guarantees.NoWindowLostAtCloseSystem | services/preprocessor/internal/aggregator/manager.go:120-144 | the same up to and including the final FlushAll, after which nothing is live and the log of the cell is ascending and final |
| Guarantees.NoWindowLostCalls | services/preprocessor/internal/aggregator/manager.go:65-199 | the same for orderly runs of calls with restarts |
| Guarantees.NoWindowLostAtCloseCalls | services/preprocessor/internal/aggregator/manager.go:120-144 | the same for orderly runs of calls with restarts, ended by FlushAll |
| Manager.CandleState.Fold | services/preprocessor/internal/aggregator/candle.go:17-28 | writes to the candle in place what the fold of one tick gives |
| Manager.NewCandleState | services/preprocessor/internal/aggregator/candle.go:35-60 | fresh objects that hold the tick's new bar |
| Manager.MultiSink.FlushCandle | services/preprocessor/internal/aggregator/multisink.go:21-34 | every sink gets the candle as often as it is listed, also after a failure; the error is the first one, and none exactly if all accepted |
| Manager.Adapter.Save | services/preprocessor/internal/storage/redis/adapter.go:28-43 | the store afterwards: the candle's record under its key, with a deadline of two durations |
| Manager.Adapter.LoadAt | services/preprocessor/internal/storage/redis/adapter.go:45-75 | a fresh object with the stored bar of the window, or none; an unknown interval fails |
| Manager.Adapter.DeleteAt | services/preprocessor/internal/storage/redis/adapter.go:77-87 | only the key of the window of the instant is gone; an unknown interval fails and changes nothing |
| Manager.Manager.FlushOne | services/preprocessor/internal/aggregator/manager.go:146-166 | the candle is complete before the sinks see it; its stored copy is dropped only after every sink accepted |
| Manager.Manager.FlushEntry | services/preprocessor/internal/aggregator/manager.go:188-197 | the entry is handed over and removed whatever the sinks answer; no other entry or object changes |
| Manager.Manager.CreateEntry | services/preprocessor/internal/aggregator/manager.go:81-98 | adopts the stored bar of the window without folding the tick, or opens a new bar, in objects of its own |
| Manager.Manager.ReplaceEntry | services/preprocessor/internal/aggregator/manager.go:101-107 | hands the ended bar over and opens a new one without asking the store, whatever the sinks answered |
| Manager.Manager.UpdateEntry | services/preprocessor/internal/aggregator/manager.go:108-113 | folds the tick into the live bar in place and saves it |
| Manager.Manager.Process | services/preprocessor/internal/aggregator/manager.go:65-117 | is the run of one turn per configured interval; ownership is kept, and objects handed over earlier stay handed over and unchanged |
| Manager.Manager.FlushExpired | services/preprocessor/internal/aggregator/manager.go:183-199 | is a sweep over exactly the live cells, in some order; buckets only lose entries |
| Manager.Manager.FlushEverything | services/preprocessor/internal/aggregator/manager.go:120-144 | visits all live cells once and leaves every bucket empty; there is no error exactly if every sink accepted every candle |
| Manager.Manager.ExpireKey | services/preprocessor/internal/storage/redis/adapter.go:37-42 | the store may drop a key whose time to live is over, and nothing else changes |
| Manager.Manager.Ownership | services/preprocessor/internal/aggregator/manager.go:89-165 | live candles and states are pairwise distinct objects and not complete; every candle handed to the sinks was handed over once, is complete, is in no bucket, and has the value it was handed with |
| Manager.NewManager | services/preprocessor/internal/aggregator/manager.go:40-62 | succeeds exactly if every interval is known, and starts with empty buckets over any store |
| Rewriter.PrepareQuery | services/query-service/internal/storage/timescaledb/repo.go:142-155 | the loop takes each key once, in some order, and computes the rewriting for that order |
| Replacement.ReplacedParts | services/query-service/internal/storage/timescaledb/repo.go:149 | for any text, replacing puts the new text in the place of the leftmost occurrences that do not overlap, and changes nothing else |
| Replacement.OneParameter | services/query-service/internal/storage/timescaledb/repo.go:142-155 | with one parameter of any key, a name or not, those occurrences of the colon and the key become `$1`, and the value is passed exactly if there is one |
| RewriterTokens.ReplaceTokens | services/query-service/internal/storage/timescaledb/repo.go:148-149 | without a longer name that starts with the key, textual replacement is substitution of the tokens that are the name |
| RewriterTokens.LoopTokens | services/query-service/internal/storage/timescaledb/repo.go:146-153 | after the loop every name of a key is the position of that key's value, and every other token is unchanged |
| RewriterMeaning.OneOrder | services/query-service/internal/storage/timescaledb/repo.go:142-155 | the arguments are the values of the used keys, each once, every position occurs, and the meaning is kept exactly if no raw position collides |
| RewriterMeaning.ClashBreaks | services/query-service/internal/storage/timescaledb/repo.go:146-150 | starting with a key that is a proper prefix of a name changes the meaning |
| RewriterMeaning.MeaningPreserved | services/query-service/internal/storage/timescaledb/repo.go:142-155 | for all values and all iteration orders the rewritten query means what the raw one means, if and only if no key is a proper prefix of a name and no raw position collides |
| SafeSelect.PrefixClashExample | services/query-service/internal/storage/timescaledb/repo.go:142-155 | a query that the filter accepts and on which a prefix clash changes the meaning |
| SafeSelect.PositionClashExample | services/query-service/internal/storage/timescaledb/repo.go:142-155 | a query that the filter accepts and on which a raw position changes the meaning |
| Occurrences.OccurrenceSurvives | services/query-service/internal/storage/timescaledb/repo.go:148-149 | a word without a dollar sign or a leading digit that occurs in the output occurred in the input |
| SafeSelect.IsSafeSelect | services/query-service/internal/storage/timescaledb/repo.go:127-139 | the scan decides the filter: starts with select and holds no listed word, trimmed and lower-cased |
| FilterWords.AcceptedExactly | services/query-service/internal/storage/timescaledb/repo.go:127-139 | a text is accepted if and only if, white space apart, it starts with select and none of the eight words stands anywhere in it, in any case of letters |
| FilterWords.WordRefused | services/query-service/internal/storage/timescaledb/repo.go:132-137 | whatever stands before and behind it, a text whose lower-casing is one of the eight words makes the filter refuse |
| FilterWords.SecondStatementExample | services/query-service/internal/storage/timescaledb/repo.go:132-137 | two texts with a second statement, in lower and in upper case, that the filter refuses |
| SafeSelect.RewritingKeepsSafe | services/query-service/internal/storage/timescaledb/repo.go:127-155 | a query that the filter accepts is accepted after rewriting, for all parameters and orders |
| SafeSelect.Prepare | services/query-service/internal/storage/timescaledb/repo.go:64-78 | what reaches the database is accepted by the filter, and means what the caller wrote unless there is a clash |
| Paging.CandleTable.FlushCandle | services/preprocessor/internal/storage/timescaledb/timescale.go:80-113 | inserts the row or leaves the one that is there; no row ever changes |
| Paging.QueryCandles | services/analytics-api/internal/storage/timescaledb/reader.go:59-130 | fails on an unknown interval, a malformed token, or a failing query or row, else returns the first rows after the later of start and token, and the token of the last of them: as many as requested, or 500 without a request, unless fewer remain or are delivered |
| Paging.PageFirst | services/analytics-api/internal/storage/timescaledb/reader.go:88-94 | a selected row is on the page or lies after everything on it |
| Paging.SessionInOrder | services/analytics-api/internal/storage/timescaledb/reader.go:73-129 | following the tokens gives strictly increasing times inside the open range, whatever happens to the table |
| Paging.SessionRows | services/analytics-api/internal/storage/timescaledb/reader.go:106-127 | while rows are inserted, every candle of a session is a row of the final table with its values |
| Paging.SessionComplete | services/analytics-api/internal/storage/timescaledb/reader.go:73-129 | a session that reached its empty page has every row that was there at its start |
| Paging.SessionCatches | services/analytics-api/internal/storage/timescaledb/reader.go:73-129 | it also has every row inserted later that the token had not passed |
| Paging.RemainingShrinks | services/analytics-api/internal/storage/timescaledb/reader.go:88-94 | a page takes exactly its rows off the rows that remain |
| Paging.PagesJoin | services/analytics-api/internal/storage/timescaledb/reader.go:73-129 | over a table at rest a finished session is the query without a limit, and enough calls finish it |
| Paging.SessionStops | services/analytics-api/internal/storage/timescaledb/reader.go:73-129 | once inserts cease a session ends, after at most one call per remaining row and one more |
| Paging.InsertedReadsBack | services/preprocessor/migrations/timescaledb/0001_create_candles.up.sql:12 | the first candle inserted for a key is read back field by field, whatever is inserted afterwards |
| EndToEnd.SessionReadsLog | services/preprocessor/internal/storage/timescaledb/timescale.go:80-113 | over the table that the log of the sinks filled, a finished session returns exactly the bars of the log inside the open range, field by field and in order |
| EndToEnd.SessionReadsBatch | services/analytics-api/internal/storage/timescaledb/reader.go:59-130 | from ticks to pages: after an orderly run whose table sink applied every insert, a finished session returns exactly the batch bars of the symbol's ticks inside the open range |
| Tokens.TokenRepo.Store | services/auth/internal/storage/postgres/token.go:20-29 | appends the row unless its id is taken; success means it was inserted |
| Tokens.TokenRepo.FindByJTI | services/auth/internal/storage/postgres/token.go:31-43 | finds a row with the JTI, or reports that there is none |
| Tokens.TokenRepo.RevokeByJTI | services/auth/internal/storage/postgres/token.go:45-53 | marks every row with the JTI and no other |
| Tokens.AuthService.CheckRoles | services/auth/internal/usecase/login.go:91-99 | reports a role that is not valid, exactly if there is one |
| Tokens.AuthService.StoreRetrying | services/auth/internal/usecase/login.go:112-126 | the state and the outcome of the retried insert |
| Tokens.AuthService.LogIn | services/auth/internal/usecase/login.go:91-126 | the new state of table and ledgers, and the tokens handed out, as the step that `TokenOutcomes.LogInOutcome` spells out |
| Tokens.AuthService.RefreshTokens | services/auth/internal/usecase/refresh.go:36-106 | the new state and the outcome, as the step that `TokenOutcomes.RefreshOutcome` spells out |
| Tokens.AuthService.LogOut | services/auth/internal/usecase/logout.go:23-35 | the new state, as the step that `TokenOutcomes.LogOutOutcome` spells out; success means that the token was usable and the write acknowledged |
| Tokens.AuthService.Revoke | services/auth/internal/usecase/revoke.go:33-60 | refuses anything but a refresh token that can be parsed, else revokes by its JTI, trying again until it is acknowledged |
| TokenOutcomes.RolesAre | services/auth/internal/jwt/role.go:23-30 | roles are valid exactly if each spells admin, user or viewer, in any case of letters |
| TokenOutcomes.LogInOutcome | services/auth/internal/usecase/login.go:91-126 | an invalid role changes nothing; else both tokens handed out, all that is signed and all that is stored carry the user's id and own roles; it succeeds if and only if both are signed and an insert is acknowledged, and every inserting attempt up to that one stores a row under its own id |
| TokenOutcomes.RefreshOutcome | services/auth/internal/usecase/refresh.go:36-106 | a token that is not genuine, not stored or revoked changes nothing; else its rows are revoked, if that write is applied, both new tokens and all that is signed or stored carry the presented user and roles, at most one row is stored, under its JTI, and success is characterised exactly |
| TokenOutcomes.LogOutOutcome | services/auth/internal/usecase/logout.go:23-35 | an applied logout of a usable JTI revokes every row of it and touches no other row; otherwise nothing changes |
| TokenOutcomes.LogOutIsFinal | services/auth/internal/usecase/logout.go:23-35 | after an applied logout of a usable JTI and any events behind it, the JTI never passes the reuse check again |
| TokenOutcomes.RevokeOutcome | services/auth/internal/usecase/revoke.go:33-60 | anything but a refresh token whose JTI can be read changes nothing; else, if an attempt is applied, all rows of the JTI and no others are revoked, at the instant of the last applied attempt that was made; success is characterised exactly |
| TokenOutcomes.RevokeIsFinal | services/auth/internal/usecase/revoke.go:49-51 | after a request to revoke with an applied attempt and any events behind it, the JTI never passes again |
| TokenOutcomes.RefreshIsFinal | services/auth/internal/usecase/refresh.go:60-64 | the same for the presented token of a refresh whose revocation was applied |
| TokenOwners.SignedForOwner | services/auth/internal/usecase/refresh.go:67-73 | in every run each token that is signed, for access or refresh, carries the user and the valid roles of the login that its chain started from, and only logins and refreshes sign tokens |
| TokenChains.StepKeepsChains | services/auth/internal/usecase/refresh.go:47-95 | every handler keeps the invariant of the chains |
| TokenChains.ChainSafety | services/auth/internal/usecase/refresh.go:47-95 | in every run no token passes the check twice, none has two successors, a login's chain has at most one token that is not revoked, and user and roles stay the same along it |
| TokenChains.RevocationIsFinal | services/auth/internal/storage/postgres/token.go:45-53 | in every run, rows stay, and a revocation is never undone |
| TokenChains.RefreshAgain | services/auth/internal/usecase/refresh.go:54-64 | a refreshed token passes again if and only if its revocation was not applied |
| TokenChains.AccessNeverPasses | services/auth/internal/usecase/refresh.go:47-52 | an access token is never accepted for a refresh, although its claims look the same |
| TokenChains.GrantedPasses | services/auth/internal/usecase/refresh.go:79-105 | a refresh token that was handed out passes the check and carries its owner and roles |
| JwtCache.JWTCache.Get | services/api-gateway/internal/middleware/jwt_cache.go:33-41 | a hit exactly for a stored token up to and including its expiry, with the claims that are stored |
| JwtCache.JWTCache.Put | services/api-gateway/internal/middleware/jwt_cache.go:44-55 | stores the claims until they expire, or for 15 minutes |
| JwtCache.JWTCache.Cleanup | services/api-gateway/internal/middleware/jwt_cache.go:61-69 | deletes exactly the entries that have expired at the tick |
| JwtCache.CleanupInvisible | services/api-gateway/internal/middleware/jwt_cache.go:33-70 | with a monotone clock, leaving out every cleanup changes no result of Get, also when a tick is handled late |
| JwtCache.Authenticate | services/api-gateway/internal/middleware/jwt.go:27-48 | case by case: without a bearer token refused; a cached token served from the cache and nothing else done, whether or not the auth service can be reached; else as the auth service says, and then stored until the token expires or for 15 minutes |
| JwtCache.CachedAnswers | services/api-gateway/internal/middleware/jwt.go:35-48 | once a request with a token was accepted, every later one gets the token's claims, reachable or not, whatever requests and cleanups come between, until the token expires, or its entry if the token does not |
| JwtCache.AnswerExact | services/api-gateway/internal/middleware/jwt.go:35-48 | after any history the answer with its metadata is the auth service's own if and only if it is no hit, or a hit outside the instant of expiry whose entry was filled with the same metadata |
| JwtCache.EdgeExample | services/api-gateway/internal/middleware/jwt_cache.go:36-40 | a history after which the cache accepts a token that the auth service refuses |
| JwtCache.MetadataExample | services/api-gateway/internal/middleware/jwt.go:35-48 | a history after which a hit carries another request's metadata |
| JwtCache.CacheTransparent | services/api-gateway/internal/middleware/jwt.go:35-48 | after any history the claims are those the auth service would give, if and only if the request does not meet a cached token in the instant of its expiry; the metadata of a hit is that of an earlier request with the token, and otherwise the request's own |
| JwtCache.NothingForged | services/api-gateway/internal/middleware/jwt.go:35-48 | also when the auth service is down, nothing is accepted that it would refuse, outside that instant |
| Pipeline.Channel.TrySend | services/market-data-collector/pkg/binance/ws.go:188-192 | the message is appended exactly if the buffer has room |
| Pipeline.Pipeline.constructor | services/market-data-collector/pkg/binance/config.go:22-25 | both buffers hold the configured number of messages, or 10000 if none is configured |
| Pipeline.Pipeline.ReadMessage | services/market-data-collector/pkg/binance/ws.go:188-192 | a read message is appended if the buffer has room, and dropped otherwise |
| Pipeline.Pipeline.TakeMessage | services/market-data-collector/internal/transport/binance/client.go:31-34 | takes the oldest message and counts it by type |
| Pipeline.Pipeline.ForwardMessage | services/market-data-collector/internal/transport/binance/client.go:35-39 | hands it on, or drops it and counts the drop |
| Pipeline.Pipeline.RouteMessage | services/market-data-collector/internal/processor/dispatcher.go:41-59 | an unsupported message is skipped, a failing one counted, and routing goes on |
| PipelineRuns.StepKeepsFlow | services/market-data-collector/internal/transport/binance/client.go:28-42 | every step of every goroutine keeps order, account, bounds, meters and closing discipline |
| PipelineRuns.ErrorsExact | services/market-data-collector/internal/processor/dispatcher.go:41-59 | in every interleaving the error meter is exactly the number of routed messages that have a processor and made it fail |
| PipelineRuns.PipelineSafe | services/market-data-collector/internal/transport/binance/client.go:28-42 | in every interleaving: what is routed is read in that order, read messages are routed, buffered, in hand or dropped, buffers fit, and per type the meter is forwarded plus dropped plus in hand |
| PipelineRuns.DrainingEnds | services/market-data-collector/internal/processor/dispatcher.go:41-59 | after the stream is closed every run is finite, with an explicit bound |
| PipelineRuns.SomethingRuns | services/market-data-collector/internal/transport/binance/client.go:30-42 | until the router has stopped some goroutine can go on |
| PipelineRuns.Drained | services/market-data-collector/internal/processor/dispatcher.go:41-61 | when the router has stopped, every read message was routed or dropped, and exactly the supported ones were handled |
| PipelineRuns.NothingLost | services/market-data-collector/pkg/binance/ws.go:188-192 | in no interleaving is a message dropped when no more were read than a buffer holds |

## Left out

- Kafka, Redis, Postgres, WebSocket, gRPC and HTTP drivers, retry timing, telemetry, configuration and wiring: stores are maps, sinks are logs with an arbitrary answer, and retries are lists of attempts.
- Float rounding and NaN: prices and volumes are reals.
- Protobuf bytes: a stored candle is the record of its fields.
- Signing, bcrypt and JWT parsing: a signed token is the record of its claims, and a verified one was signed here.
- The checks of user name and password before the role check of a login, and registration.
- Manager.Adapter.Save: the deadline counts from the clock reading of the turn, not from the later instant at which Redis takes the command.
- Manager.Manager.FlushOne: the latency and the counters it reports are not modelled.
- Recovery.NoWindowLost: asks that saves succeed, and loads where there is a copy; a lost save is a lost copy in the program too, and `FlushAll` in the middle of a run would hand a window over twice.
- RewriterMeaning.MeaningPreserved: SQL syntax beyond names and positions is not modelled, so a name inside a string literal is a name, and a position above the number of arguments is literal text.
- Paging.QueryCandles: a connection that breaks while rows arrive shortens the page without an error, as in the program, which does not look at it.
- Sub-microsecond parts of a request's start, which the database type cannot hold.
- TokenChains.ChainSafety: handlers are atomic, JTIs are new, and revocations inside a refresh are applied.
- Tokens.TokenRepo.FindByJTI: the first of several copies of a row is found, where the database may pick any; copies always agree on being revoked.
- Expiry of refresh tokens in the database, which no handler looks at.
- JwtCache.CacheTransparent: the auth service decides by token and expiry only, and by the gateway's clock.
- The parsing of a message into data and type, reconnection, pings and the context of the collector.
- `ListSymbols`, the interval string of the `GetCandles` handler, `SubscribeCandles`, the rate limiter and the role tables.
