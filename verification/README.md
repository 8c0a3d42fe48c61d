# Sales dashboard core, modelled in Dafny

A Dafny model of the computing core of a sales-floor dashboard. The dashboard has two parts:

- **The status backend.** `GET /api/status-operadores` reads the roster of sales operators. It asks an upstream telephony API for each operator's status, in chunks of bounded concurrency. It rolls the answers up into logged-in counts and targets per contract type (CLT or internship), and caches the result.
- **Three React screens.**
  - The traffic-light board (`DashboardSemaforo`): status columns, the "logged in" gauge and its banners.
  - The sales ranking (`DashboardRanking`).
  - The animated ranking (`RankingAnimado`), which highlights one seller after another.
  - The screens share a helper that resolves the API address (`src/utils/api.js`).

The model has one module per source unit:

| file | module | models |
|---|---|---|
| `server_batch.dfy` | `Batch` | `processBatch`: chunking, dropping failed items, the pauses between chunks |
| `server_status.dfy` | `OperatorStatus` | roster rows to `ramais`, `processRamal`, the logged-in tallies, the targets, the refresh pipeline |
| `server_cache.dfy` | `StatusCache` | `operadoresCache` (a class) and the route's serve / join / start decision |
| `server_image.dfy` | `ImageUrl` | `isValidImageUrl` |
| `semaforo_tempo.dfy` | `Tempo` | `tempoFormatado`, and a reader that inverts it |
| `semaforo.dfy` | `Semaforo` | the percentage, the four-row gauge, the banners, the status columns (filter, sort, top 10, average, share) |
| `api.dfy` | `Api` | `API_BASE_URL` and `apiUrl` |
| `ranking.dfy` | `Ranking` | position labels, the top-5 list, the response shapes, amount parsing, the descending sort (an in-place method on an array), and the board state (a class) |
| `ranking_animado.dfy` | `RankingAnimado` | the phases and highlight index of the animated ranking (a class) |
| `text.dfy`, `arith.dfy`, `wrappers.dfy` | `Text`, `Arith`, `Wrappers` | support: JavaScript string operations (`includes`, `toLowerCase`, `trim`, `replace`, number-to-text), arithmetic facts, `Option`/`Result` |

The source's I/O is turned into parameters:

- The roster query arrives as a `Result`.
- The upstream API is a function from extension id to reply.
- `Date.now()` is a `now` argument.
- Environment settings are `Option`s.
- `new URL(...).protocol` is a function argument.
- `parseFloat` is a function argument.
- Timer callbacks are methods that the caller invokes.

The model keeps these behaviours of the code as they are written:

- **Pauses between chunks.** `processBatch` also pauses after the last chunk whenever there is more than one chunk.
- **Ranking error.** A later successful refresh leaves an earlier error message in place, so the ranking board keeps showing the error (see Findings; `Ranking.Board.RefreshCorrected` is the corrected refresh).
- **Blank port setting.** A port setting of blanks gives an empty port rather than the default.
- **Waiters of a failed refresh.** Every request that was waiting on a refresh that fails starts a refresh of its own (`backend-dashboard/server.js` lines 216-224), so k waiters start k refreshes (see Findings; `StatusCache.RunCorrected` is the corrected behaviour).

## Model

| member | source | states |
|---|---|---|
| Batch.SurvivorsAppend | backend-dashboard/server.js:180-190 | the survivors of consecutive chunks are the survivors of each chunk, in order |
| Batch.SurvivorsOne | backend-dashboard/server.js:181-189 | one item survives exactly when its lookup yields a value, and then contributes that value |
| Batch.SurvivorsBounds | backend-dashboard/server.js:180-190 | never more results than items; all lookups succeeding gives every result in input order; all failing gives none |
| Batch.SurvivorsComeFromItems | backend-dashboard/server.js:181-189 | every result is the value of the lookup of some input item |
| Batch.CeilDivCharacterised | backend-dashboard/server.js:176-178 | the number of chunks is the least k with n <= k * concurrency |
| Batch.Chunk | backend-dashboard/server.js:176-178 | the chunks concatenate back to the items; there are ceil(n / concurrency) of them; each holds 1..concurrency items and all but the last are full |
| Batch.ProcessBatch | backend-dashboard/server.js:172-198 | the results are the successful lookups in input order; with more than one chunk one pause follows every chunk, otherwise none |
| Batch.MoreThanOneChunk | backend-dashboard/server.js:192-194 | there is more than one chunk exactly when there are more items than the concurrency |
| OperatorStatus.ToRamal | backend-dashboard/server.js:269-275 | id, names and team are copied; a missing or empty contract type becomes "CLT", so the type is never empty |
| OperatorStatus.ToRamais | backend-dashboard/server.js:269-275 | one extension per roster row, in order |
| OperatorStatus.ProcessRamal | backend-dashboard/server.js:281-313 | a record exists iff the reply arrived with code 1 and a payload; the duration is the milliseconds floored to seconds; the name falls back from nomeFront to nome; text fields get their defaults |
| OperatorStatus.TallyAppend | backend-dashboard/server.js:325-337 | the tallies of a concatenation are the sums of the tallies |
| OperatorStatus.TallyBounds | backend-dashboard/server.js:325-337 | CLT plus internship logged-in counts are at most the logged-in count, which is at most the number of records |
| OperatorStatus.CountLogados | backend-dashboard/server.js:321-337 | the loop computes the tallies of the records |
| OperatorStatus.MetaBounds | backend-dashboard/server.js:340-343 | the CLT and internship targets together are at most the roster size |
| OperatorStatus.MetaAppend | backend-dashboard/server.js:342-343 | the targets add up over concatenation |
| OperatorStatus.LogadosWithinMeta | backend-dashboard/server.js:321-343 | for every upstream behaviour, the logged-in CLT and internship counts are at most their targets |
| OperatorStatus.OneWithinMeta | backend-dashboard/server.js:321-343 | one extension adds at most as much to each logged-in count as to its target |
| OperatorStatus.AggregateConsistent | backend-dashboard/server.js:340-357 | every answer built from a roster satisfies the relations between its counters, its target is the roster size and its filter label is fixed |
| OperatorStatus.RecordsHaveStatus | backend-dashboard/server.js:298-308 | every record carries a non-empty status text |
| OperatorStatus.EmptyConsistent | backend-dashboard/server.js:253-267 | the all-zero answer for an empty roster satisfies the same relations |
| OperatorStatus.FetchOperadores | backend-dashboard/server.js:226-371 | a missing token fails with its message; a roster error propagates; an empty roster gives the zero answer, not stored; otherwise the aggregate, stored; every answer is consistent; pauses happen only with more rows than the concurrency |
| OperatorStatus.PausedOperatorCase | backend-dashboard/server.js:296-343 | a CLT operator paused for 65000 ms gives a 65 s record, no one logged in, a CLT target of 1 |
| OperatorStatus.InPauseNotLogado | backend-dashboard/server.js:328-329 | "Em Pausa" is not logged in |
| OperatorStatus.TimeoutCase | backend-dashboard/server.js:309-312 | a lookup that fails drops the record but still counts the operator in the targets |
| OperatorStatus.PauseMentionedCase | backend-dashboard/server.js:328-329 | any status text mentioning "pausa" counts as not logged in, even "Em atendimento (livre para pausa)" |
| OperatorStatus.CltCounts | backend-dashboard/server.js:342 | an extension of type "CLT" counts once in the CLT target |
| StatusCache.SettingOr | backend-dashboard/server.js:17-18 | a numeric setting is used unless it is absent or zero, otherwise the default (10 lookups, 15000 ms); a non-negative setting with a positive default gives at least 1 |
| StatusCache.DecisionOf | backend-dashboard/server.js:204-220 | the cache is served iff there is data younger than the duration; otherwise the request joins a running fetch iff one is running, and starts one iff none is |
| StatusCache.Decided | backend-dashboard/server.js:222-224 | only starting a fetch changes the state, by raising the fetching flag |
| StatusCache.Rejoined | backend-dashboard/server.js:216-224 | after a failed join the request starts its own fetch, keeping the data |
| StatusCache.Succeeded | backend-dashboard/server.js:359-378 | a completed fetch lowers the flag; a stored answer replaces data and timestamp, an unstored one leaves them |
| StatusCache.FailedState | backend-dashboard/server.js:381-382 | a failure lowers the flag and keeps the old data |
| StatusCache.FreshAfterSuccess | backend-dashboard/server.js:204-208 | after storing an answer at time t, requests before t + duration get it and later ones start a fetch |
| StatusCache.FreshEarlier | backend-dashboard/server.js:204-208 | data that is fresh at some time was fresh at every earlier time |
| StatusCache.FailureNeverJoins | backend-dashboard/server.js:381-382 | after a failure no request waits on a dead fetch; the old data is still served while fresh |
| StatusCache.EmptyRosterNotCached | backend-dashboard/server.js:253-267 | the empty-roster answer leaves the cache as a failure would |
| StatusCache.Decisions | backend-dashboard/server.js:204-224 | one decision per request |
| StatusCache.AtMostOneStart | backend-dashboard/server.js:210-224 | among requests arriving while no fetch completes, at most one starts a fetch, and none if one is running |
| StatusCache.ColdStartCase | backend-dashboard/server.js:204-224 | three requests on a cold cache: the first starts, the others join |
| StatusCache.RunAsWritten | backend-dashboard/server.js:210-224 | one decision per event, new requests deciding as usual and resumed waiters of a failed refresh starting their own |
| StatusCache.ResumesAllStart | backend-dashboard/server.js:216-224 | as written, k waiters resuming after a failed refresh start k refreshes |
| StatusCache.TwoWaitersTwoRefreshes | backend-dashboard/server.js:210-224 | two waiters of a failed refresh on an empty cache: two refreshes as written, one refresh and one join as intended |
| StatusCache.RunCorrected | backend-dashboard/server.js:204-224 | one decision per event, a resumed waiter deciding again like a new request |
| StatusCache.RunCorrectedDecides | backend-dashboard/server.js:204-224 | as intended, a run of events decides exactly as new requests at the same times |
| StatusCache.CorrectedAtMostOneStart | backend-dashboard/server.js:204-224 | as intended, at most one refresh starts whatever mix of new and resumed requests arrives, and none while one runs |
| StatusCache.OperadoresCache.constructor | backend-dashboard/server.js:70-75 | empty data, timestamp 0, not fetching |
| StatusCache.OperadoresCache.Decide | backend-dashboard/server.js:204-224 | returns the decision and moves to the decided state |
| StatusCache.OperadoresCache.RetryAfterJoinFailure | backend-dashboard/server.js:216-224 | the state after a failed join |
| StatusCache.OperadoresCache.CompleteSuccess | backend-dashboard/server.js:359-378 | the state after a completed fetch |
| StatusCache.OperadoresCache.CompleteFailure | backend-dashboard/server.js:381-388 | the state after a failed fetch |
| StatusCache.OperadoresCache.Handle | backend-dashboard/server.js:201-389 | fresh data is answered as stored and the cache is unchanged; with a refresh running the request waits and the cache is unchanged; otherwise a missing token or a roster error gives the 500 message "Erro interno do servidor" and the failure state, an empty roster gives the zero answer without storing it, and any other roster gives its aggregate, stored at the refresh time; the server error happens exactly in those two cases; every new answer is consistent |
| ImageUrl.IsValidImageUrlIff | backend-dashboard/server.js:112-129 | a URL is valid iff it is a string, not "false" or "null" in any case, not blank, and parses with protocol http: or https: |
| ImageUrl.BlankRejected | backend-dashboard/server.js:116-119 | a blank string is rejected whatever the parser says |
| ImageUrl.SentinelRejected | backend-dashboard/server.js:116-117 | "NULL" and "False" are rejected |
| Tempo.AsSeconds | src/components/DashboardSemaforo.jsx:27 | a missing duration counts as 0 |
| Tempo.Split | src/components/DashboardSemaforo.jsx:28-30 | hours, minutes and seconds add back up to the input, minutes and seconds below 60 |
| Tempo.TempoRoundTrip | src/components/DashboardSemaforo.jsx:26-34 | reading the formatted duration back gives the number of seconds, so no two durations look alike |
| Tempo.PiecesOfFormat | src/components/DashboardSemaforo.jsx:31-33 | the text is the number-and-unit pieces laid end to end |
| Tempo.PiecesOfValue | src/components/DashboardSemaforo.jsx:28-33 | the pieces are well formed and their fields add up to the input |
| Tempo.TempoShape | src/components/DashboardSemaforo.jsx:31-33 | the whole text, by the size of the input: under a minute "⟨s⟩s"; under an hour "⟨m⟩m⟨ss⟩s"; otherwise "⟨h⟩h⟨mm⟩m⟨ss⟩s", with minutes and seconds padded to two digits |
| Tempo.SplitShape | src/components/DashboardSemaforo.jsx:28-30 | the three fields, by the size of the input: which are zero and what the others hold |
| Tempo.ZeroSeconds | src/components/DashboardSemaforo.jsx:33 | 0 is "0s" |
| Tempo.HourExample | src/components/DashboardSemaforo.jsx:31 | 3725 is "1h02m05s" |
| Text.NatToString | src/components/DashboardSemaforo.jsx:31-33 | decimal digits, a leading zero only for 0, one digit exactly below 10 |
| Text.NatToStringRoundTrip | src/components/DashboardSemaforo.jsx:31-33 | the digits read back to the number |
| Text.Pad2 | src/components/DashboardSemaforo.jsx:31-32 | `padStart(2, "0")`: a shorter text gets zeros in front up to two characters; a text of two or more is unchanged |
| Semaforo.RoundDiv | src/components/DashboardSemaforo.jsx:105 | the rounded quotient is the nearest integer, halves up |
| Semaforo.RoundDivAtMost | src/components/DashboardSemaforo.jsx:105 | a rounded quotient is at most k iff 2a + b < 2b(k + 1) |
| Semaforo.PercentAtMost100 | src/components/DashboardSemaforo.jsx:105 | the percentage of a part is at most 100, and 100 when the part is the whole |
| Semaforo.PercentAtMost | src/components/DashboardSemaforo.jsx:105 | the percentage is at most k iff 200 * part < (2k + 1) * whole |
| Semaforo.SnapshotPercent | src/components/DashboardSemaforo.jsx:105 | for every answer of the backend the gauge is at most 100 |
| Semaforo.LinhasAsWritten | src/components/DashboardSemaforo.jsx:107-118 | the gauge rows as written, always four |
| Semaforo.Linhas | src/components/DashboardSemaforo.jsx:107-118 | the gauge rows with the three-row band up to 99, always four |
| Semaforo.Greens | src/components/DashboardSemaforo.jsx:107-118 | the number of green rows, at most four |
| Semaforo.LinhasFillFromBottom | src/components/DashboardSemaforo.jsx:107-118 | row i is green exactly when the percentage earns at least 4 - i rows, so the gauge fills from the bottom |
| Semaforo.GreensMonotone | src/components/DashboardSemaforo.jsx:107-118 | a higher percentage never shows fewer green rows |
| Semaforo.LinhasAgree | src/components/DashboardSemaforo.jsx:114-117 | the code as written and the corrected gauge differ exactly at 99 |
| Semaforo.NinetyNineGoesGray | src/components/DashboardSemaforo.jsx:114-117 | 98 of 100 shows three green rows, 99 of 100 shows none as written and three corrected |
| Semaforo.BannerOf | src/components/DashboardSemaforo.jsx:212-213 | the critical banner iff at most 24 percent, the full-energy banner iff exactly 100 |
| Semaforo.BannerOfCounts | src/components/DashboardSemaforo.jsx:105-213 | no target is critical; otherwise critical iff 200 logged < 49 target, full energy iff 200 logged >= 199 target |
| Semaforo.CardsOf | src/components/DashboardSemaforo.jsx:137-145 | one card per record, in order |
| Semaforo.Members | src/components/DashboardSemaforo.jsx:137-144 | a column holds exactly the records whose normalised status contains its keyword, each as often as it occurs, and no more cards than the board |
| Semaforo.MembersAppend | src/components/DashboardSemaforo.jsx:137-144 | the filter keeps board order: the members of two stretches of the board are those of the first followed by those of the second |
| Semaforo.MembersOne | src/components/DashboardSemaforo.jsx:137-144 | one card is kept exactly when it matches the column |
| Semaforo.MembersWithTempo | src/components/DashboardSemaforo.jsx:137-145 | a column's cards of one time are the board's matching cards of that time, in board order |
| Semaforo.MembersIff | src/components/DashboardSemaforo.jsx:137-144 | a card is in a column iff it is on the board and matches the column |
| Semaforo.Insert | src/components/DashboardSemaforo.jsx:145 | inserting keeps the elements, the total time and the descending order |
| Semaforo.SortByTempo | src/components/DashboardSemaforo.jsx:145 | the column sorted by time, longest first, with the same elements and total |
| Semaforo.InsertStable | src/components/DashboardSemaforo.jsx:145 | an inserted card goes ahead of the cards of equal time, whose order is kept |
| Semaforo.SortByTempoStable | src/components/DashboardSemaforo.jsx:145 | the sort is stable: the cards of any one time keep their input order |
| Semaforo.SumBounds | src/components/DashboardSemaforo.jsx:151 | the total time lies between n times the least and n times the greatest |
| Semaforo.AverageWithin | src/components/DashboardSemaforo.jsx:148-154 | the average text always reads back as a duration: 0 for an empty column, otherwise between the least and greatest time |
| Semaforo.MeanWithin | src/components/DashboardSemaforo.jsx:150-152 | a rounded mean lies between the bounds of its terms |
| Semaforo.ColumnFacts | src/components/DashboardSemaforo.jsx:136-158 | the title is the status's label; count equals the members; the top holds min(10, count) of them, descending; no omitted member waited longer than a shown one; among members of equal time the ones shown are the first on the board, in board order; the share is at most 100 when every record is logged |
| Semaforo.ColumnTies | src/components/DashboardSemaforo.jsx:137-147 | for every time, the shown cards of that time are a prefix of the board's matching cards of that time |
| Semaforo.TiesInBoardOrder | src/components/DashboardSemaforo.jsx:137-147 | any prefix of the sorted column holds, for each time, the first matching cards of that time in board order |
| Semaforo.TopFacts | src/components/DashboardSemaforo.jsx:147 | a prefix of a descending list is descending and holds its longest times |
| Semaforo.Board | src/components/DashboardSemaforo.jsx:5-24 | one column per status, each titled with its label and counting its members |
| Semaforo.BoardTitles | src/components/DashboardSemaforo.jsx:5-24 | the columns read "Em Atendimento", "Em Pausa", "Livre", left to right |
| Semaforo.BoardShares | src/components/DashboardSemaforo.jsx:156-158 | every column's share is at most 100 when the total covers every operator |
| Semaforo.ShareAtMost100 | src/components/DashboardSemaforo.jsx:156-158 | one column's share is at most 100 when the total covers every operator |
| Semaforo.SnapshotShares | src/components/DashboardSemaforo.jsx:156-158 | for every answer of the backend each column's share is at most 100 |
| Semaforo.MatchesAnyCase | src/components/DashboardSemaforo.jsx:139-143 | a status containing the keyword in any letter case lands in the column |
| Semaforo.PausaAposAtendimento | src/components/DashboardSemaforo.jsx:5-24 | a status naming both a pause and a call shows in both columns |
| Api.RawEnvUrl | src/utils/api.js:2 | a set, non-empty base setting is trimmed; otherwise "" |
| Api.ApiPort | src/utils/api.js:3 | a set, non-empty port setting is trimmed; otherwise "3500" |
| Api.StripTrailingSlash | src/utils/api.js:24 | exactly one trailing slash is removed, if there is one |
| Api.ApiUrl | src/utils/api.js:28-35 | an empty path gives the base; a path gets exactly the leading slash it lacks |
| Api.ApiBaseUrlChoice | src/utils/api.js:2-26 | a non-blank base setting wins, less one trailing slash; otherwise the fallback origin with the API port |
| Api.FallbackBase | src/utils/api.js:12-22 | without a base setting: localhost over http for a local page, the page's own protocol and host for a published one, the fixed server without a page |
| Api.KeptWhole | src/utils/api.js:24 | an address ending in the port loses nothing to the slash removal |
| Api.DefaultBaseWithoutPage | src/utils/api.js:18-20 | no settings and no page: http://85.31.61.242:3500 |
| Api.DefaultBaseLocal | src/utils/api.js:13-14 | no settings on 127.0.0.1: http://localhost:3500, whatever the page's protocol |
| Api.DefaultBasePublished | src/utils/api.js:15-17 | no settings on any other host: the page's protocol, the host and port 3500 |
| Api.BlankPortStaysBlank | src/utils/api.js:3 | a port setting of blanks leaves the port empty |
| Api.OneSlashOnly | src/utils/api.js:24 | a base ending in two slashes keeps one |
| Api.LeadingSlashOptional | src/utils/api.js:33 | a path with or without its leading slash gives the same address |
| Api.ApiUrlSplits | src/utils/api.js:28-35 | every address starts with the base, followed by one slash and the path |
| Text.TrimEmptyIffBlank | src/utils/api.js:2-3 | `trim()` gives "" iff the text is all whitespace |
| Text.TrimStart | src/utils/api.js:2-3 | only leading whitespace is removed, up to the first non-blank |
| Text.TrimEnd | src/utils/api.js:2-3 | only trailing whitespace is removed, back to the last non-blank |
| Text.Lower | backend-dashboard/server.js:328 | `toLowerCase()` keeps the length |
| Text.LowerAppend | backend-dashboard/server.js:328 | lower-casing works character by character |
| Text.StripAccentsAppend | src/components/DashboardSemaforo.jsx:141-142 | stripping accents works character by character |
| Text.ContainsIffOccurs | backend-dashboard/server.js:329 | `includes` holds iff the text occurs at some position |
| Ranking.RenderPosicao | src/components/DashboardRanking.jsx:4-22 | the first three positions get the gold, silver and bronze medals, later ones their 1-based number |
| Ranking.PositionLabelsDistinct | src/components/DashboardRanking.jsx:12-21 | no two positions share a label |
| Ranking.RankingList | src/components/DashboardRanking.jsx:218-250 | at most five rows, each with its label, its podium or top-5 style, its seller and its photo or the default picture |
| Ranking.PodiumIsMedals | src/components/DashboardRanking.jsx:226-235 | a row has a podium style iff it has a medal; rows from the fourth on are plain |
| Ranking.PhotoSrcIff | src/components/DashboardRanking.jsx:245 | the photo is used iff it is set and not blank; otherwise the default picture |
| Ranking.RankingArray | src/components/DashboardRanking.jsx:281-285 | an array is used as is, an object's array `ranking` likewise, anything else gives no rows; a null body fails |
| Ranking.CleanAmountOneDot | src/components/DashboardRanking.jsx:292-295 | the cleaned amount text holds at most one dot |
| Ranking.AmountOf | src/components/DashboardRanking.jsx:290-297 | a text amount is cleaned and parsed, 0 when unparsable; a number is kept; a missing one is 0 |
| Ranking.FormatData | src/components/DashboardRanking.jsx:288-298 | one seller per entry, in order, with its amount converted |
| Ranking.SortByValor | src/components/DashboardRanking.jsx:301 | the array ends in descending order of amount and is a permutation of what it held |
| Ranking.Insert | src/components/DashboardRanking.jsx:301 | one insertion step extends the sorted prefix by one and permutes the array |
| Ranking.Board.constructor | src/components/DashboardRanking.jsx:267-269 | no rows, loading, no error |
| Ranking.Board.ViewOf | src/components/DashboardRanking.jsx:326-340 | loading, else a non-empty error message, else the list, else the "no data" message; an empty message counts as no error |
| Ranking.Board.Refresh | src/components/DashboardRanking.jsx:272-310 | a successful response stores its sellers sorted by amount, a permutation of the converted entries, and keeps the error as it was; an HTTP error, a thrown error or a null body clears the rows and records the message |
| Ranking.Board.StaleErrorShown | src/components/DashboardRanking.jsx:272-310 | as written, a failed refresh followed by one with sellers still shows the error and not the ranking |
| Ranking.Board.RefreshCorrected | src/components/DashboardRanking.jsx:272-340 | as intended, a good body also clears the error, so the board shows the ranking received, or the empty notice; failures as in `Refresh` |
| RankingAnimado.Delay | src/components/RankingAnimado.jsx:130-152 | the wait `setTimeout` applies: the delay itself, or 0 for a negative one |
| RankingAnimado.Started | src/components/RankingAnimado.jsx:124-145 | a non-empty ranking restarts the plain list with the first timer and the finish due at 3000 + tempoDestaque * n (0 when that is negative); an empty one cancels both and changes nothing else |
| RankingAnimado.FirstTicked | src/components/RankingAnimado.jsx:130-133 | the first timer enters the animation on row 0, highlighted from 3000 ms |
| RankingAnimado.Advanced | src/components/RankingAnimado.jsx:147-154 | the step timer moves the highlight one row down, one period after the last move (at once for a negative period), until the last row, and changes nothing else |
| RankingAnimado.StepsKeepValid | src/components/RankingAnimado.jsx:121-154 | every step keeps a highlight exactly in the animation phase, on an existing row |
| RankingAnimado.AtMostOneHighlighted | src/components/RankingAnimado.jsx:165-169 | at most one row is highlighted, and it exists |
| RankingAnimado.HighlightAfter | src/components/RankingAnimado.jsx:130-154 | after the first timer and k steps the highlight is on row min(k, n - 1), taken at 3000 + min(k, n - 1) * tempoDestaque, or at 3000 for a negative period |
| RankingAnimado.EveryRowOnePeriod | src/components/RankingAnimado.jsx:147-154 | each row but the last keeps the highlight for exactly one period (none for a negative one) before the next takes it |
| RankingAnimado.LastRowGetsItsTurn | src/components/RankingAnimado.jsx:130-154 | the last row is reached after n - 1 steps and no step follows; with a period of zero or more the finish is due exactly one period after the last row took the highlight; with a negative one every step happens at 3000 and the finish is due no later |
| RankingAnimado.Rendered | src/components/RankingAnimado.jsx:119-145 | a render changes nothing when `onFinish` keeps its identity; when it is new, the first effect runs again and the ranking restarts in the plain list |
| RankingAnimado.DefaultFinishRestarts | src/components/RankingAnimado.jsx:119-145 | as written, with the default `onFinish`, whatever timers fire the board is back in the plain list with no highlight, and with a positive period the finish is due after the restart that cancels it |
| RankingAnimado.StableFinishWalks | src/components/RankingAnimado.jsx:124-154 | with an `onFinish` that keeps its identity, the timers step the animation as the step functions do: after the first timer and k steps the highlight is on row min(k, n - 1) |
| RankingAnimado.Highlighter.constructor | src/components/RankingAnimado.jsx:121-122 | the plain list, no highlight |
| RankingAnimado.Highlighter.Start | src/components/RankingAnimado.jsx:124-145 | the state after new ranking data |
| RankingAnimado.Highlighter.FirstTick | src/components/RankingAnimado.jsx:130-133 | the state after the first timer |
| RankingAnimado.Highlighter.Advance | src/components/RankingAnimado.jsx:147-154 | the state after a step timer |
| RankingAnimado.Highlighter.RowOf | src/components/RankingAnimado.jsx:165-169 | a row shows its position label and is highlighted iff it is the highlighted one |

## Left out

- I/O and timing:
  - The SQL connection, the roster query and the HTTP calls are parameters.
  - Promise.all and the shared `fetchPromise` are not modelled: concurrent requests appear as a sequence of decisions, and the joined fetch's outcome is the caller's.
  - `sleep(100)` appears only as a count of pauses.
  - `Date.now()` and the server's own timestamp are parameters.
  - The upstream timeout `ARGUS_TIMEOUT` appears only as a failed reply.
- The environment: `process.env` values arrive already parsed. `parseInt` of a non-numeric setting is `None`.
- `new URL(...)` is an abstract protocol function. URL syntax is not modelled.
- `normalize("NFD")` with the combining-mark removal is modelled for the Latin-1 accented letters only. Case mapping covers ASCII and Latin-1.
- `Math.round((a / b) * 100)` is modelled with exact integers. Floating-point rounding of the quotient is not: it can differ at exact halves.
- `parseFloat` is an abstract function and `formatCurrency` (`Intl.NumberFormat`) is left out. Amounts are `real`.
- A `valorVendido` that is neither a string nor a number is treated as missing. A non-numeric `tempoStatus` is treated as 0.
- OperatorStatus.ProcessRamal: the upstream `tempoStatus` is a `nat`, so negative values are not modelled. The source would floor one to a negative number of seconds (`Math.floor(-1 / 1000)` is -1), and that record would carry a negative duration.
- RankingAnimado: timers fire exactly on time; `setTimeout` drift and React's scheduling of state updates are not modelled. The clamp of a negative delay to 0 is modelled; which of two timers due at the same moment fires first is not.
- RankingAnimado.Highlighter: the class models a caller whose `onFinish` keeps its identity across renders. The re-run of the first effect when it does not (the default prop) is modelled on values by `Rendered` and `Fired`.
- Ranking.SortByValor: proves order and permutation but not the stability of `Array.prototype.sort`.
- ImageUrl.IsValidImageUrl: has no contract of its own; `ImageUrl.IsValidImageUrlIff` states it. The database lookup around it (`getVendedorImage`) is not part of this model.
- Batch.ProcessBatch: requires a concurrency of at least 1. A setting of 0 falls back to 10 through `SettingOr`. A negative setting would make the source's chunking loop run forever, and it is not modelled.
- React rendering, styles, icons, the 30-second polling intervals and `PainelRotativo.jsx` are not modelled.
- The empty-ranking message of `RankingAnimado.jsx` (lines 156-158) is not modelled.
- The Dashboard status screen's own loading flag and fetch (`DashboardSemaforo.jsx` lines 52-90) are not modelled.

## Findings

| source | as written | input that shows it | evidently intended | confidence | as-written member | corrected member |
|---|---|---|---|---|---|---|
| src/components/DashboardRanking.jsx:303-309 | a successful refresh sets the rows but never clears `error`, and the view tests `error` before the rows (lines 326-337) | a refresh that throws "Failed to fetch", then one that brings sellers: the board keeps showing "Erro: Failed to fetch" until the page reloads | a good refresh replaces an old error, so the board shows the ranking it received | not executed | Ranking.Board.StaleErrorShown | Ranking.Board.RefreshCorrected |
| backend-dashboard/server.js:216-224 | a request whose awaited refresh fails falls through the catch block and sets `isFetching` and starts a refresh without looking at the flag again | two requests waiting on a refresh that fails on an empty cache: both start a refresh, so two run at once | the waiters decide again, so at most one refresh runs and the other waiters join it | not executed | StatusCache.RunAsWritten, StatusCache.ResumesAllStart, StatusCache.TwoWaitersTwoRefreshes | StatusCache.RunCorrected, StatusCache.RunCorrectedDecides, StatusCache.CorrectedAtMostOneStart |
| src/components/RankingAnimado.jsx:119-145 | the first effect depends on `onFinish`, whose default `() => {}` is a new function at every render, so the render that follows the first timer runs the effect again, which puts the list back and cancels both timers | a caller that leaves out `onFinish`, five rows, `tempoDestaque` 10000: at 3000 ms row 0 lights up, the effect restarts the list, and the highlight never reaches row 1 nor does the finish timer ever fire | each row is highlighted for one period and then the animation finishes, whether or not the caller passes `onFinish` (a default that keeps its identity, or `onFinish` left out of the dependencies) | not executed | RankingAnimado.Rendered, RankingAnimado.DefaultFinishRestarts | RankingAnimado.StableFinishWalks, RankingAnimado.HighlightAfter, RankingAnimado.LastRowGetsItsTurn |
| src/components/DashboardSemaforo.jsx:114-117 | the three-row band is `percent >= 75 && percent < 99`, and the next branch is `percent === 100`, so 99 falls through to the all-gray default | logados = 99, meta = 100: percent 99 shows four gray rows, while percent 98 shows three green | 75 to 99 percent shows three green rows, and the gauge never shrinks as more operators log in | not executed | Semaforo.LinhasAsWritten, Semaforo.NinetyNineGoesGray | Semaforo.Linhas, Semaforo.LinhasFillFromBottom, Semaforo.GreensMonotone |
