# Deck tracking and round rollover for the Infinex leaderboard bot, in Dafny

This project models the core of the Infinex bot (yalishendaa/infinex) and proves properties of the model. The bot watches the live plays of a card game and reports decks played by tracked ("hot") players. The modelled core has five parts:

- **Deck tracker** (`utils/deckTracker.js`): the `DeckTracker` object, modelled as a Dafny class over two map fields.
  - The processed index maps a username to the set of deck ids already handled.
  - The deck history maps a username to that player's decks, newest first, at most 50.
  - `processNewDecks` classifies each play of a batch as a new deck, an updated deck or something to skip, then records it.
  - The per-play decision is the pure function `DeckTracking.Step`; the batch is its fold `DeckTracking.Run`; the class methods are proved equal to them.
- **Round manager** (`utils/roundManager.js`): the `RoundManager` object. It advances the round number by one at 00:00 UTC of a date it has not handled yet, keeps an update log, and computes the countdown to the next midnight. The clock is an input.
- **Leaderboard analysis** (`utils/parseLeaderboard.js`): per-player statistics over leaderboard rows, the hot/regular split, and the list of round ids to fetch.
- **Player matching** (`utils/matchPlayers.js`): the hot-player lookup, the pairwise shared-card report, and the short deck id.
- **API import** (`import-api-data.js`, lines 42-145): flattens saved API responses into records, aggregates them per player, and builds the hot list, the regular list, the counts and the round ids.

Loops that change variables or objects are methods with loop invariants. Each is proved equal to a pure specification function, and the properties are lemmas about those functions. The modules are:

- `Common`: option type, JavaScript truthiness, Set order, ASCII lower case, decimal rendering.
- `Sorting`: the stable sort.
- `PlayerMatching`
- `DeckHistory`: the per-player history.
- `DeckTracking`
- `RoundManagement`
- `LeaderboardParsing`
- `ApiImport`

Value conventions:

- Timestamps compared by the code (`createdAt`) are integers.
- Wall-clock stamps that are only stored (`addedAt`, `updatedAt`, `timestamp`) are an opaque `Stamp`.
- A card is its optional `cardId`.

What the proofs show about the code:

- **Deck ids are injective.** The id is `${username}_${roundId}_${createdAt}`. Rendered integers contain no underscore, so two different plays never share an id, even when a username contains `_` (`DeckTracking.DeckIdInjective`).
- **An update is appended, not replaced.** `addDeckToHistory` replaces only an entry with the same round *and* the same `createdAt`. An update is strictly newer than the round's entry, so in a sorted history it matches nothing: the newer deck is appended beside the earlier one, and both stay in the history (`DeckHistory.NewerPlayIsAppended`, `DeckHistory.UpdateKeepsEarlierEntry`). The code's comments describe an update as replacing the existing deck; the model follows the code.
- **Reprocessing is idempotent only for emitted plays.** A rerun of the same batch never re-emits a play that was emitted (`DeckTracking.RerunNeverReemits`). A play skipped as a same-round duplicate is not marked as processed, though. If later decks push that round's entry out of the 50-entry history, a rerun can emit that play as new. So "a second run emits nothing" is not proved, because it does not hold in general.
- **Some usernames abort the import.** `playerStats` in the import is a plain object, so for a username such as "constructor", "toString" or "__proto__", `playerStats[username]` is already truthy. The entry is never created, `.rounds.push` throws, and the `catch` writes no output (`ApiImport.InheritedNameAborts`, `ApiImport.ImportApiData`). The leaderboard analysis uses a `Map` and has no such case.
- **One advance per date needs ordered clock readings.** The round advances at most once per date only when clock readings never go back in date and do not precede the date held at start (`RoundManagement.AtMostOneAdvancePerDate`). A restart resets the remembered date to today (`RoundManagement.RoundManager.Initialize`).

## Model

| member | source | states |
|---|---|---|
| Common.Distinct | import-api-data.js:144 | `Array.from(new Set(s))`: each element of `s` once, nothing else, no duplicates, no longer than `s` |
| Common.LowerString | utils/deckTracker.js:207 | `toLowerCase` keeps the length and lowers each ASCII letter, leaving other characters alone |
| Common.SealSpellings | utils/deckTracker.js:207 | a username is excluded exactly when it has four characters, each the letter of "seal" at that place in lower or upper case |
| Common.IntToString | utils/deckTracker.js:122 | the `${n}` rendering of an integer contains no underscore |
| Common.IntToStringRoundTrip | utils/deckTracker.js:122 | parsing the rendering of an integer gives the integer back |
| Common.IntToStringInjective | utils/deckTracker.js:122 | two integers render alike exactly when they are equal |
| Sorting.SortDesc | utils/deckTracker.js:186 | the stable sort by a numeric key returns a permutation of its input, ordered newest (largest key) first |
| Sorting.CutKeepsLargest | utils/deckTracker.js:189-191 | cutting a sorted list to its first n entries keeps it sorted, and every dropped entry's key is at most every kept entry's key |
| PlayerMatching.MatchTopPlayer | utils/matchPlayers.js:10-12 | `find` or `null`: None exactly when no hot player has the name; otherwise a hot player of that name |
| PlayerMatching.FilterIn | utils/matchPlayers.js:33 | the filter keeps exactly the elements present in the other hand, and keeps a duplicate-free list duplicate-free |
| PlayerMatching.CommonCardsSpec | utils/matchPlayers.js:29-33 | the shared cards are exactly the distinct cards present in both hands, each once, in first-hand order |
| PlayerMatching.PairReportSpec | utils/matchPlayers.js:36-44 | a pair is reported exactly when the players share a card; the report names player i then player j and lists the shared cards and their count |
| PlayerMatching.RowPairsSpec | utils/matchPlayers.js:25 | the inner loop visits the pairs (i, j) for i < j < n, in increasing j |
| PlayerMatching.PairsSpec | utils/matchPlayers.js:24-25 | the nested loops visit every pair i < j < n exactly once, in lexicographic order |
| PlayerMatching.PairsBounds | utils/matchPlayers.js:24-25 | every visited pair (i, j) has i < j < n, with i below the outer bound reached |
| PlayerMatching.PairsOrdered | utils/matchPlayers.js:24-25 | the visited pairs come in strictly increasing lexicographic order, so none is visited twice |
| PlayerMatching.PairsComplete | utils/matchPlayers.js:24-25 | every pair i < j < n with i below the outer bound reached is visited |
| PlayerMatching.SimilarityReportsSound | utils/matchPlayers.js:24-46 | every report is for two distinct players i < j that share the reported cards |
| PlayerMatching.SimilarityReportsComplete | utils/matchPlayers.js:24-46 | every pair of players i < j that share a card is reported |
| PlayerMatching.CompareWithLater | utils/matchPlayers.js:25-45 | the inner loop yields the reports of the pairs (i, j), j > i, in order |
| PlayerMatching.RowStep | utils/matchPlayers.js:29-44 | one inner iteration adds one report for (i, j) exactly when the two players share a card |
| PlayerMatching.AnalyzeCardSimilarity | utils/matchPlayers.js:19-47 | the nested loops yield the reports of all pairs in visiting order, so every sharing pair is reported once and nothing else is |
| PlayerMatching.CreateDeckIdSpec | utils/matchPlayers.js:93-95 | the short id starts with the username and '_', and two short ids are equal exactly when username and createdAt are |
| DeckHistory.FindSlot | utils/deckTracker.js:162-165 | `findIndex`: None exactly when no entry has the deck's round and createdAt; otherwise the first such index |
| DeckHistory.UpsertSpec | utils/deckTracker.js:167-183 | a matching entry is replaced in place (keeping `addedAt`, setting `updatedAt`, `isUpdate` true), nothing else moves; otherwise one fresh entry with `isUpdate` false is appended |
| DeckHistory.AddedToHistory | utils/deckTracker.js:154-192 | after an insertion the history is sorted newest first and holds at most 50 entries |
| DeckHistory.AddedToHistorySpec | utils/deckTracker.js:185-191 | the result holds min(n, 50) of the upserted entries, newest first, and every dropped entry is no newer than every kept one |
| DeckHistory.FreshEntryRetained | utils/deckTracker.js:176-191 | a newly added deck stays in the history unless it is full of 50 entries all at least as new |
| DeckHistory.FirstInRound | utils/deckTracker.js:283 | `find` by round: None exactly when no entry has the round; otherwise the first entry of the round |
| DeckHistory.FirstInRoundIsNewest | utils/deckTracker.js:283-291 | in a history sorted newest first, the entry `find` returns is the newest of its round |
| DeckHistory.NewerPlayIsAppended | utils/deckTracker.js:162-183 | a play strictly newer than its round's entry matches no slot, so the upsert appends it |
| DeckHistory.UpdateKeepsEarlierEntry | utils/deckTracker.js:242-262 | below the cap, recording an update leaves the old entries and adds the fresh one; the round's earlier entry is kept |
| DeckHistory.KeepRecent | utils/deckTracker.js:368-371 | the age filter never lengthens a history and returns it unchanged when it drops nothing |
| DeckHistory.KeepRecentCounts | utils/deckTracker.js:368-371 | the filter keeps exactly the entries created at or after the cutoff, each as often as before |
| DeckHistory.KeepRecentPrefix | utils/deckTracker.js:364-377 | on a history sorted newest first the kept entries are a prefix, so the cleaned history stays sorted and capped |
| DeckHistory.KeepRecentNone | utils/deckTracker.js:368-371 | a history whose entries are all older than the cutoff is emptied |
| DeckTracking.DeckIdInjective | utils/deckTracker.js:121-123 | two deck ids are equal exactly when username, roundId and createdAt are all equal |
| DeckTracking.MarkProcessedSpec | utils/deckTracker.js:141-149 | marking adds the username key and makes exactly the marked play processed, in addition to the plays processed before |
| DeckTracking.MarkProcessedIdempotent | utils/deckTracker.js:141-149 | marking a play already processed leaves the index unchanged |
| DeckTracking.MarkProcessedCount | utils/deckTracker.js:141-149 | marking adds one id to the processed total exactly when the play was not processed before |
| DeckTracking.TrackedPlayer | utils/deckTracker.js:212-222 | with a non-empty hot list, the hot player of that name or none; without one, a non-hot player seen once |
| DeckTracking.StepSpec | utils/deckTracker.js:201-263 | a skipped play changes nothing; an emitted deck is the play's deck for its tracked player, its play was unprocessed and is now recorded; a new deck's round had no entry, an update is newer than the round's first entry |
| DeckTracking.StepEmitsFreshPlays | utils/deckTracker.js:242-256 | a tracked, unprocessed play is new exactly when its round has no entry, and an update exactly when it is newer than the round's first entry |
| DeckTracking.StepDeck | utils/deckTracker.js:229-240 | an emitted deck is built from the play and its tracked player |
| DeckTracking.RecordSpec | utils/deckTracker.js:258-262 | recording a deck processes its play, keeps earlier plays processed, and keeps every history sorted and capped |
| DeckTracking.RecordKeepsProcessed | utils/deckTracker.js:258-262 | recording a deck never unmarks a processed play |
| DeckTracking.StepKeepsProcessed | utils/deckTracker.js:201-263 | one play never unmarks a processed play |
| DeckTracking.StepMarks | utils/deckTracker.js:242-262 | a play that is not skipped is processed afterwards |
| DeckTracking.StepDescribed | utils/deckTracker.js:213-240 | with a hot list, an emitted deck belongs to a listed player and carries their status and count |
| DeckTracking.RunPreservesValid | utils/deckTracker.js:197-270 | a batch keeps every player's history sorted newest first and capped at 50 |
| DeckTracking.RunMarksEmitted | utils/deckTracker.js:197-270 | processed plays stay processed, and every emitted deck's play is processed after the batch |
| DeckTracking.RunKeepsProcessed | utils/deckTracker.js:197-270 | a batch never unmarks a processed play |
| DeckTracking.RunMarksDeck | utils/deckTracker.js:197-270 | every deck a batch emits has its play processed after the batch |
| DeckTracking.RunEmitsOnlyUnprocessed | utils/deckTracker.js:224-227 | every emitted deck comes from a play not processed when the batch started |
| DeckTracking.RerunNeverReemits | utils/deckTracker.js:224-227 | rerunning the batch never emits a play the first run emitted |
| DeckTracking.RunExcludesSeal | utils/deckTracker.js:206-210 | the excluded player is never emitted, and their entries in both maps are untouched |
| DeckTracking.RunKeepsSealEntries | utils/deckTracker.js:206-210 | the excluded player's processed set and history are the same after a batch |
| DeckTracking.RunEmitsNoSeal | utils/deckTracker.js:206-210 | no deck a batch emits belongs to the excluded player |
| DeckTracking.RunWithoutHotList | utils/deckTracker.js:219-222 | without a hot list every emitted deck is a "Top" deck of a non-hot player seen once |
| DeckTracking.RunWithHotList | utils/deckTracker.js:213-218 | with a hot list every emitted deck belongs to a listed player and carries their status and appearance count |
| DeckTracking.RunSkipsIgnoredPlays | utils/deckTracker.js:206-227 | a batch of excluded, untracked or already processed plays emits nothing and changes nothing |
| DeckTracking.SumCountsRemove | utils/deckTracker.js:313-317 | the sum over a map of counts does not depend on the order the keys are taken in |
| DeckTracking.TotalIdsUpdate | utils/deckTracker.js:141-149 | replacing one player's processed set changes the total by the difference of the two set sizes |
| DeckTracking.DeckTracker.constructor | utils/deckTracker.js:5-10 | a new tracker has two empty maps, so it is valid |
| DeckTracking.DeckTracker.Restore | utils/deckTracker.js:15-71 | a tracker loaded from saved data holds exactly the saved maps |
| DeckTracking.DeckTracker.IsDeckProcessed | utils/deckTracker.js:128-136 | true exactly when the player has a set and the play's id is in it |
| DeckTracking.DeckTracker.MarkDeckAsProcessed | utils/deckTracker.js:141-149 | the index becomes the marked index; the history is untouched |
| DeckTracking.DeckTracker.AddDeckToHistory | utils/deckTracker.js:154-192 | only the player's history changes, to the upserted, sorted, capped history |
| DeckTracking.DeckTracker.UpdatedHistory | utils/deckTracker.js:162-191 | the upsert, sort and cut of one history give `AddedToHistory` of it |
| DeckTracking.DeckTracker.IsDeckUpdate | utils/deckTracker.js:275-295 | true exactly when the round's first entry exists and is strictly older than the play; then the round has a deck |
| DeckTracking.DeckTracker.HasDeckInRound | utils/deckTracker.js:300-307 | true exactly when the player's history has an entry of the round |
| DeckTracking.DeckTracker.ProcessNewDecks | utils/deckTracker.js:197-270 | the new state and both output lists are those of the batch function `Run`; validity is preserved |
| DeckTracking.DeckTracker.ProcessPlay | utils/deckTracker.js:201-263 | one loop iteration: the new state and the outcome are those of `Step` |
| DeckTracking.DeckTracker.EmitDeck | utils/deckTracker.js:229-262 | for a tracked, unprocessed play: the new state and the outcome (new, updated or skipped as a same-round duplicate) are those of `Step` |
| DeckTracking.DeckTracker.CleanOldData | utils/deckTracker.js:344-384 | every history is filtered by the cutoff, the processed index and the set of players are unchanged, validity is preserved |
| DeckTracking.DeckTracker.GetStats | utils/deckTracker.js:312-325 | the player counts are the map sizes; the deck counts are the sums of set sizes and history lengths |
| DeckTracking.DeckTracker.SumIds | utils/deckTracker.js:313-314 | the reduce over the processed sets totals their sizes |
| DeckTracking.DeckTracker.SumEntries | utils/deckTracker.js:316-317 | the reduce over the histories totals their lengths |
| RoundManagement.SavedRoundId | api/fetchLivePlays.js:102-115 | the saved round when it is present and truthy, otherwise 359 |
| RoundManagement.Check | utils/roundManager.js:56-71 | the round advances by one and the date is remembered exactly at 00:00 of a date not yet handled; otherwise nothing changes |
| RoundManagement.CheckIdempotentOnDate | utils/roundManager.js:64-70 | after a check at a handled date, further checks at that date change nothing |
| RoundManagement.FiredDatesCount | utils/roundManager.js:56-88 | over a run of checks the round grows by the number of advances, and the remembered date is that of the last advance |
| RoundManagement.FiredDatesAreRead | utils/roundManager.js:59-68 | every advance happens at the date of a clock reading |
| RoundManagement.AtMostOneAdvancePerDate | utils/roundManager.js:63-70 | over readings in date order, none before the start date, the advance dates strictly increase and follow the start date |
| RoundManagement.NoAdvanceOnStartDate | utils/roundManager.js:66-69 | checks on the date the manager started never advance |
| RoundManagement.LogChainSpan | utils/roundManager.js:93-124 | a chained update log accounts for the whole advance since its first record |
| RoundManagement.RoundManager.Initialize | utils/roundManager.js:13-25 | the round is the saved one or the default, the remembered date is today, the log is empty |
| RoundManagement.RoundManager.CheckForRoundUpdate | utils/roundManager.js:56-71 | the state becomes `Check` of the old state; one log record is added exactly when the round advances; the log stays chained |
| RoundManagement.RoundManager.UpdateRound | utils/roundManager.js:76-88 | the round grows by one, the date is kept, one record old → new is logged |
| RoundManagement.RoundManager.LogRoundUpdate | utils/roundManager.js:93-124 | appends one record to the log and changes nothing else |
| RoundManagement.RoundManager.ForceUpdateRound | utils/roundManager.js:136-139 | advances by one whatever the clock says, and logs it |
| RoundManagement.RoundManager.GetCurrentRound | utils/roundManager.js:129-131 | returns the current round |
| RoundManagement.RoundManager.GetNextUpdateInfo | utils/roundManager.js:144-163 | the next update is the first UTC midnight after now; hours and minutes are the whole time left, rendered "Hч Mм"; the next round is the current plus one |
| LeaderboardParsing.AddCardsSpec | utils/parseLeaderboard.js:35-41 | the card Set keeps its elements in place, gains exactly the play's truthy card ids, and never holds one twice |
| LeaderboardParsing.StatsAppearances | utils/parseLeaderboard.js:13-32 | `appearances` counts the player's rows, and `rounds` tags each row's round, 'unknown' when falsy |
| LeaderboardParsing.StatsBestPosition | utils/parseLeaderboard.js:22-31 | `bestPosition` is Infinity exactly when no row has a truthy position; otherwise the least such position, attained by a row |
| LeaderboardParsing.StatsCards | utils/parseLeaderboard.js:35-41 | `cards` holds each truthy card id the player played, once |
| LeaderboardParsing.LastSeen | utils/parseLeaderboard.js:57 | `lastSeen` is the largest numeric round, or -Infinity when there is none |
| LeaderboardParsing.WithHeat | utils/parseLeaderboard.js:60-64 | a player goes to the list matching its `isHot`, and to no other |
| LeaderboardParsing.WithHeatSplit | utils/parseLeaderboard.js:48-65 | the split loses and duplicates nothing |
| LeaderboardParsing.AnalyzeReportsStats | utils/parseLeaderboard.js:48-65 | every listed player is the summary of their own statistics, hot exactly when seen twice or more |
| LeaderboardParsing.AnalyzeListsEveryone | utils/parseLeaderboard.js:13-65 | every username of the rows is listed as hot or as regular |
| LeaderboardParsing.InHotList | utils/parseLeaderboard.js:60-61 | every hot summary is in the hot list |
| LeaderboardParsing.AnalyzeNotBoth | utils/parseLeaderboard.js:60-64 | no player is both hot and regular |
| LeaderboardParsing.AnalyzeListsOnce | utils/parseLeaderboard.js:48-65 | neither list names a player twice |
| LeaderboardParsing.SummariesNamed | utils/parseLeaderboard.js:48-58 | the summaries are those of the distinct usernames, in first-seen order |
| LeaderboardParsing.DistinctPlayersDiffer | utils/parseLeaderboard.js:48-65 | two positions of a sub-list of the summaries hold different players |
| LeaderboardParsing.AnalyzeCounts | utils/parseLeaderboard.js:75-80 | `totalUniquePlayers` is the number of distinct usernames, which equals hot plus regular |
| LeaderboardParsing.AnalyzeHotOrder | utils/parseLeaderboard.js:68 | the hot list is ordered by appearances, most first, and is a permutation of the hot summaries |
| LeaderboardParsing.ParseLeaderboard | utils/parseLeaderboard.js:6-81 | the two passes return exactly `Analyze` of the rows |
| LeaderboardParsing.CollectStats | utils/parseLeaderboard.js:13-42 | the first pass builds the Map of every player's statistics, the username Set and the key order |
| LeaderboardParsing.Visit | utils/parseLeaderboard.js:14-41 | one row extends what the pass has built to one more row |
| LeaderboardParsing.CollectedStep | utils/parseLeaderboard.js:14-41 | one more row adds its username to the Set and key order when new, and updates only that player's statistics |
| LeaderboardParsing.AbsorbRecord | utils/parseLeaderboard.js:28-41 | one row's effect on its player's statistics |
| LeaderboardParsing.SplitByHeat | utils/parseLeaderboard.js:48-65 | the second pass yields the hot and the regular summaries, in key order |
| LeaderboardParsing.CollectCards | utils/parseLeaderboard.js:35-41 | the inner loop adds the play's truthy card ids to the Set |
| LeaderboardParsing.GenerateRoundIds | utils/parseLeaderboard.js:89-97 | `roundsCount` ids (none when it is not positive), counting down from the current round |
| ApiImport.BoardRecordsSpec | import-api-data.js:52-67 | a leaderboard yields a record exactly for each row not of the excluded player |
| ApiImport.ResponseRecordsSpec | import-api-data.js:47-69 | a response yields the records of its rounds with a leaderboard, numbered 355 + response index + round index |
| ApiImport.AllRecordsSpec | import-api-data.js:42-71 | a record is in `allPlayers` exactly when it comes from a kept row of some round, with round id 355 + i + k |
| ApiImport.FromResponseSnoc | import-api-data.js:47-69 | a response's records are those of all its rounds but the last, plus those of the last round's leaderboard |
| ApiImport.FromResponsesSnoc | import-api-data.js:42-71 | the records of all responses are those of all but the last, plus those of the last |
| ApiImport.NoSealRecords | import-api-data.js:53-57 | no record is the excluded player's |
| ApiImport.AppendNewDistinct | import-api-data.js:97-103 | pushing the cards not yet `includes`d keeps the list of first occurrences |
| ApiImport.StatsAppearances | import-api-data.js:78-91 | `appearances` counts the player's records |
| ApiImport.StatsRounds | import-api-data.js:92 | `rounds` lists the round ids of the player's records, in order |
| ApiImport.StatsCards | import-api-data.js:96-103 | `cards` lists each card of the player's records once, in order of first occurrence |
| ApiImport.StatsBestPosition | import-api-data.js:86-94 | `bestPosition` is Infinity exactly when there is no record; otherwise the least position, attained by a record |
| ApiImport.Select | import-api-data.js:108 | the filters keep exactly the players seen more than once (hot), or exactly once (regular) |
| ApiImport.SelectSplit | import-api-data.js:107-122 | when every player appeared, each lands in exactly one of the two filters |
| ApiImport.ValuesSpec | import-api-data.js:107 | `Object.values(playerStats)` holds the statistics of each username once, each seen at least once |
| ApiImport.HotPlayersSpec | import-api-data.js:107-118 | the hot list holds the players seen more than once, ordered by appearances, most first, each with rounds largest first |
| ApiImport.RegularPlayersSpec | import-api-data.js:121-132 | the regular list holds the players seen once, ordered by best position, best first |
| ApiImport.AggregateHot | import-api-data.js:107-118 | the hot players are exactly the statistics of the usernames seen more than once |
| ApiImport.AggregateRegular | import-api-data.js:121-132 | the regular players are exactly the statistics of the usernames seen once |
| ApiImport.AggregateCounts | import-api-data.js:137-142 | `totalUniquePlayers` is the number of distinct usernames, which equals hot plus regular; `totalRecords` counts the records |
| ApiImport.AggregateNotBoth | import-api-data.js:107-132 | no username is both hot and regular |
| ApiImport.RegularPositions | import-api-data.js:129-132 | every regular player's best position is finite, that of their single record |
| ApiImport.RoundIdsSpec | import-api-data.js:144 | `roundIds` lists each round id of the records once, strictly decreasing |
| ApiImport.RoundIdsStrict | import-api-data.js:144 | the round ids strictly decrease, so none is listed twice |
| ApiImport.RoundIdsMembers | import-api-data.js:144 | an id is listed exactly when some record has it |
| ApiImport.ImportApiData | import-api-data.js:42-169 | no result exactly when some record's username is a property every plain object inherits (the grouping throws and the `catch` writes nothing); otherwise exactly the pure `Import` of the responses |
| ApiImport.CollectPlayers | import-api-data.js:42-71 | the outer loop builds exactly `allPlayers` |
| ApiImport.CollectResponse | import-api-data.js:47-69 | the loop over a response's rounds builds that response's records |
| ApiImport.CollectBoard | import-api-data.js:52-67 | the loop over a leaderboard builds that board's records, skipping the excluded player |
| ApiImport.CollectStats | import-api-data.js:76-104 | the grouping loop throws exactly when a username is an inherited property name, holding what the records before the first such name built; otherwise it builds every player's statistics, in key order |
| ApiImport.InheritedNameAborts | import-api-data.js:42-92 | the grouping throws exactly when some kept leaderboard row has a username such as "constructor" or "toString" |
| ApiImport.Visit | import-api-data.js:78-103 | one record extends the grouping to one more record |
| ApiImport.CollectedStep | import-api-data.js:78-103 | one more record adds its username to the key order when new, and updates only that player's statistics |
| ApiImport.AddCards | import-api-data.js:97-103 | the card loop pushes exactly the cards not yet present |

## Left out

- File I/O and JSON: loading and saving the processed index, the history, the current round, the update log and the import output. A restored tracker is `DeckTracker.Restore`. The saved round file is `SavedRoundId`'s input. Read errors are its `None`.
- Timers: `setInterval`, `startRoundUpdateCheck` and `stopRoundUpdateCheck`. A run of minute checks is a sequence of clock readings (`CheckAll`).
- `Date` arithmetic and ISO rendering. The clock is a UTC day number with hour and minute, or UTC milliseconds. The `getTimezoneOffset` shift is taken as already applied. `nextUpdate` is a millisecond count, not its ISO string.
- Console output, `showStats`, `showStatus`, `saveToJson`, `loadFromJson` and `formatTimestamp`.
- Floating point:
  - the similarity ratio, its rounding, and the final sort of `analyzeCardSimilarity` by it;
  - `totalPoints` and `Math.round` of it;
  - `userId` and `points` in the import.
- PlayerMatching.AnalyzeCardSimilarity: the result is stated before the final sort by similarity, because the similarity is floating point.
- DeckTracking.DeckTracker.CleanOldData: takes the cutoff as an input, because computing it from `daysToKeep` needs the clock. The `cleanedDecks` and `cleanedHistory` counters only decide whether to save and log, so they are left out. The loop over the processed index removes nothing, so it is left out too.
- DeckTracking.DeckTracker.ProcessNewDecks: one stamp `now` stands for every `new Date()` of a batch.
- RoundManagement.RoundManager.LogRoundUpdate: the log is a ghost field holding this process's records. The file's earlier records and the `timezone` field are left out.
- RoundManagement.RoundManager.UpdateRound: the source awaits `saveCurrentRoundId` before it logs, and `checkForRoundUpdate` does not await `updateRound`. The model writes the record at once, as old → old + 1. It does not capture an advance, such as `forceUpdateRound`, running during that wait. The record would then read the later round, or records would be written out of order.
- RoundManagement.RoundManager.LogRoundUpdate: the record is appended when `updateRound` runs. The asynchronous read and write of the log file, and their interleaving with another update, are not modelled.
- The JavaScript number range: round ids, positions and timestamps are unbounded integers.
- `toLowerCase` is modelled on ASCII letters only.
- `Object.keys`/`Object.values` order: the model uses insertion order. JavaScript lists integer-like keys first in ascending order, so usernames that look like array indices come out in a different order.
- A missing `position` in the import gives `NaN` in the code. Positions there are integers in the model.
- A response that is not an array contributes no records. The model takes every response as a list of rounds, so such a response is an empty list.

