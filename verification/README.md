# China history map: progress and gamification core

This project is a Dafny model of the client-side state logic of an interactive map of Chinese history. A visitor opens cities on the map, reads their historical items, marks favourites, filters by period, searches, and answers one quiz question a day. The application keeps three stored records:

- `user_stats`: points, visited provinces, learned-event keys, unlocked achievements, login history and last login date;
- `quiz_data`: question counts, the day streak and the last quiz date;
- `favorites`: the list of favourite `city-item` keys.

The model covers:

- the points and achievement ledger, including the re-entrant `addPoints` → `checkAchievements` → `unlockAchievement` → `addPoints` cycle;
- daily login, the progress and report summaries, and the leaderboard;
- the quiz streak, question and option synthesis, answer bookkeeping and accuracy;
- the favourites toggle, the period filter, search suggestions, province-name normalisation, the dataset cache decision, and the records made when a city is opened.

Every operation is a pure function or a method over immutable datatypes. Dates are whole day numbers.

The following are parameters rather than modelled:

- the current day or time;
- the random draws: the item index, the question kind, and the choice sequences that drive each `sort(() => Math.random() - 0.5)`;
- whether a stored text parses as JSON;
- the outcome of the network request;
- the two values the achievement conditions read from other stored records: the length of the stored favourites list and the stored quiz streak (`Gamification.Outside`).

The modules follow the source files:

- `Gamification`, `Progress` and `Leaderboard` model `gamification.js`;
- `Quiz` and `Options` model `quiz.js`;
- `Favorites`, `Periods`, `Search`, `Provinces`, `Cache` and `CityInfo` model `main.js`;
- `Seqs`, `Text`, `Rounding` and `Dataset` hold the shared list, string, rounding and dataset definitions.

`generateWrongYear` reads only the first digit run of the correct year and writes the distractors as plain `N年`. `Options.WrongYearsExample` states this for "约公元前1045年": the distractors are 945年, 1145年, 845年 and 1245年.

Some behaviour the code has and the model keeps:

- `checkDailyQuiz` never records the day; only `selectAnswer` does. Checking twice on the day after the last quiz therefore extends the streak twice (`Quiz.CheckTwiceCountsTwice`).
- `recordFavorite` runs before the grown favourites list is saved. The award therefore sees the old count, and the tenth favourite unlocks `collector` only at the next evaluation (`Favorites.CollectorWaits`).
- The empty string is a substring of every full province name. An empty name therefore normalises to 北京 unless some record has an empty province (`Provinces.EmptyNameIsBeijing`).
- `perfect_week` counts login entries that are exactly one day after their predecessor, plus the first entry. The counted entries need not be contiguous (`Gamification.ScatteredWeek`).

## Model

| member | source | states |
|---|---|---|
| Gamification.CatalogDistinct | gamification.js:21-101 | The eight catalog ids are pairwise distinct. |
| Gamification.KeyInjective | gamification.js:21-101 | Distinct catalog entries have distinct `id` strings. |
| Gamification.StoredIds | gamification.js:264-266 | The stored `achievements` list holds one id per unlocked entry, in unlock order, duplicate-free when the entries are. |
| Gamification.AddPoints | gamification.js:191-201 | Achievements are only appended and never duplicated. Points rise by the amount plus the rewards of the appended entries. The progress lists and login fields are untouched. |
| Gamification.CheckOver | gamification.js:253-272 | The evaluation pass over the remaining catalog entries, re-entering `addPoints` for each unlock. It keeps the same ledger relation with base 0 and terminates because every nested call starts with fewer locked entries. |
| Gamification.Pending | gamification.js:253-261 | An entry is pending exactly when it is among the ids to visit, still locked, and its condition holds. |
| Gamification.CheckOverSettles | gamification.js:253-272 | Started at catalog position k, with every earlier holding entry already unlocked, the re-entrant pass equals the declarative outcome: append the pending entries in catalog order and add their rewards. |
| Gamification.UnlockStep | gamification.js:264-272 | Unlocking the entry at k (push the id, award through `addPoints`, continue the pass) gives the same declarative outcome. |
| Gamification.StartSettles | gamification.js:264-272 | The nested `addPoints` of an unlock ends settled, with fewer entries locked than before the unlock. |
| Gamification.UnlockThenSettle | gamification.js:264-272 | Unlocking the first pending entry and then settling equals settling directly. |
| Gamification.PendingAgree | gamification.js:253-261 | Which entries are pending depends only on the progress lists and on which of the visited ids are unlocked. |
| Gamification.SettleSettles | gamification.js:253-261 | After settling, nothing is pending. Settling again changes nothing. |
| Gamification.SettledHasNothingPending | gamification.js:253-261 | On a record where every holding entry is unlocked, the pass unlocks nothing and leaves the record as it is. |
| Gamification.SettleSpec | gamification.js:253-261 | The settled record unlocks exactly the entries already unlocked or whose condition holds, keeps them distinct, and adds exactly their rewards. |
| Gamification.CheckAchievements | gamification.js:253-272 | Afterwards an entry is unlocked iff it was unlocked before or its condition holds. New entries are appended in catalog order and points rise by exactly their rewards (10/50/200/500/100/150/200/300). Nothing else changes. |
| Gamification.AddPointsSettles | gamification.js:191-201 | `addPoints` adds the amount and then unlocks exactly the pending entries. Afterwards every holding entry is unlocked. |
| Gamification.AddPointsOnSettled | gamification.js:191-201 | On a settled record, `addPoints` adds exactly the amount. |
| Gamification.CheckAchievementsIdempotent | gamification.js:253-261 | Evaluating twice is the same as evaluating once. |
| Gamification.AwardThenCheck | gamification.js:236-244 | An award followed by a second evaluation finds nothing more to unlock. The result is related to the start by the ledger relation with the award as base. |
| Gamification.RecordEventLearn | gamification.js:236-244 | A known `city-title` key changes nothing. A new key is appended once and one point is awarded before unlock rewards. The entries unlocked afterwards are those unlocked before plus those whose condition now holds. Learned keys stay distinct. |
| Gamification.RecordProvinceVisit | gamification.js:226-233 | A visited province changes nothing. A first visit appends it and awards one point plus unlock rewards. The visited list stays duplicate-free. |
| Gamification.RecordFavorite | gamification.js:247-250 | Two points plus the rewards of what unlocks. The progress lists are untouched. |
| Gamification.WithDay | gamification.js:181-184 | Today is in the history afterwards. Nothing else is added, and a duplicate-free history stays so. |
| Gamification.LoginDaysGrow | gamification.js:89-98 | Appending a login day never lowers the `perfect_week` count. |
| Gamification.CheckDailyLogin | gamification.js:164-188 | On the recorded day it is a no-op. Otherwise today becomes the last login date and is appended at most once. Three points are awarded only after a gap of exactly one day. Achievements are settled, and progress lists are untouched. |
| Gamification.NewDayLedger | gamification.js:164-188 | On a new day the points rise by the continuation bonus plus the rewards of what unlocks. |
| Gamification.BonusUnlocks | gamification.js:175-178 | The continuation bonus keeps every unlocked entry and unlocks only entries whose condition already held. |
| Gamification.NewDayUnlocks | gamification.js:164-188 | After a new-day login, an entry is unlocked iff it was before or its condition holds on the new record. |
| Gamification.LoginDaysBounds | gamification.js:89-98 | The `perfect_week` count is at most the history length, and at least 1 for a non-empty history. |
| Gamification.DayRunCounts | gamification.js:89-98 | n consecutive days count n, so seven consecutive logins unlock `perfect_week`. |
| Gamification.LoginDaysSnoc | gamification.js:89-98 | An appended day counts exactly when it is the first entry or one day after the previous entry. |
| Gamification.ScatteredWeek | gamification.js:89-98 | Two separate four-day runs count 7 and satisfy `perfect_week`. |
| Gamification.FirstLearnScenario | gamification.js:236-244 | A first learned event on a fresh record stores the key, unlocks only `first_visit`, and yields 11 points. |
| Gamification.NothingUnlocks | gamification.js:21-101 | With no learned events, no visits, fewer than seven logins, and no outside progress, no condition holds. |
| Gamification.QuietLogin | gamification.js:164-188 | Far from every threshold, a new-day login only adds the bonus and records the day. |
| Gamification.ThreeDayScenario | gamification.js:164-188 | Logins on days 1, 2, 3 earn 6 points and history [1, 2, 3]. A repeat on day 3 changes nothing. |
| Gamification.GapScenario | gamification.js:164-188 | Logging in on day 1 and then day 5 earns no bonus. |
| Progress.GetLearningProgress | gamification.js:359-382 | The progress is 0 without items. Otherwise it is within half a point of 100·learned/total, with ties rounding up. The total counts all items, the province total is 34, and the progress is at most 100 when learned ≤ total. |
| Progress.QuarterProgress | gamification.js:371-373 | Five of twenty items learned show as 25. |
| Progress.SplitKey | gamification.js:392 | The first two hyphen-free fields of the key. A key without a hyphen has no title. |
| Progress.SplitEventKey | gamification.js:392 | Splitting `city-title` gives back city and title when neither holds a hyphen. |
| Progress.DynastyOf | gamification.js:392-397 | A key resolves to the dynasty of the first item with its title in the first city record with its city name. If that first city has no such item, or the key has no title, or no city has the name, it resolves to nothing. |
| Progress.DynastyOfEventKey | gamification.js:392-397 | The key stored for a hyphen-free city and title resolves to that title's first item in the first city of that name. |
| Progress.DynastyStats | gamification.js:389-402 | The tally holds a dynasty iff some learned key resolves to it, and its value is the number of such keys. |
| Progress.EmptyDataCounts | gamification.js:390 | An empty dataset or no learned keys tallies nothing. |
| Progress.SkipsUnresolved | gamification.js:394-400 | A learned key that resolves to no item leaves the tally unchanged. |
| Progress.TallyAtMostKeys | gamification.js:391-401 | No dynasty is counted more often than there are learned keys. |
| Progress.PointsHistory | gamification.js:407-410 | One entry per login day, with that day's date. The last entry shows the current total, and each earlier one is 10 lower than the next. |
| Progress.GetLearningReportData | gamification.js:385-412 | The report carries the learning progress, the dynasty tally of the learned keys (each count at most the learned count, empty for an empty dataset), and the points history of the login days. |
| Rounding.RoundedPercent | gamification.js:373 | The percentage is within half a point of 100·part/whole, with ties rounding up, and at most 100 when part ≤ whole. |
| Rounding.RoundedPercentUnique | quiz.js:342-344 | The rounded percentage is the only whole number within half a point. |
| Leaderboard.VirtualUsersSorted | gamification.js:12-18 | The five virtual users are declared in non-increasing order of points. |
| Leaderboard.InsertCounts | gamification.js:337-340 | Inserting adds exactly the new entry. |
| Leaderboard.InsertSorted | gamification.js:337-340 | Inserting into a non-increasing list keeps it non-increasing. |
| Leaderboard.SortByPoints | gamification.js:337-340 | The sorted list is non-increasing in points and is a permutation of the input. |
| Leaderboard.SortSorted | gamification.js:337-340 | Sorting an already ordered list leaves it as it is. |
| Leaderboard.InsertPlaces | gamification.js:337-340 | The inserted entry lands after every entry with at least its points and before every one with fewer. |
| Leaderboard.BoardShape | gamification.js:337-340 | The board has six entries, in non-increasing order, made of the virtual users and the current user. The current user sits after every virtual user with at least as many points. |
| Leaderboard.OneCurrentUser | gamification.js:337-347 | Exactly one board position is marked as the current user. |
| Leaderboard.RankExample | gamification.js:337-347 | With 800 points the current user is fourth. |
| Dataset.Flatten | quiz.js:79-88 | One entry per item, cities in dataset order. An entry occurs iff its item belongs to a city record with that name and province. |
| Seqs.FirstIndex | gamification.js:393 | The first position whose element satisfies the test: none iff no element does, otherwise every earlier element fails it. |
| Dataset.FindCity | main.js:385 | The first city record with the name, or none when no record has it. |
| Dataset.FindItem | gamification.js:395 | The first item with the title, or none when no item has it. |
| Text.FirstDigitRun | quiz.js:168 | None iff no digit occurs. Otherwise a non-empty maximal digit run starting at the first digit. |
| Options.Shuffle | quiz.js:109-111 | Whatever the choices, the result is a permutation of the input and keeps it duplicate-free. |
| Options.ShuffleReaches | quiz.js:109-111 | Every permutation of the input is the outcome of some choice sequence. |
| Options.CommonDistinct | quiz.js:106-136 | The 15 fallback dynasties and the 10 fallback cities are each pairwise distinct. |
| Options.YearTextInjective | quiz.js:171-176 | Different numbers give different year texts. |
| Options.WrongYears | quiz.js:166-180 | With a digit, the year options N−100, N+100, N−200, N+200 in that order (N is the first digit run), minus any equal to the correct year. Without one, the four fixed fallbacks. Never the correct year, no duplicates, at least three. |
| Options.FallbackDigits | quiz.js:179 | No fallback year equals a year text without digits, and the fallbacks are distinct. |
| Options.Pool | quiz.js:107 | The distinct values other than the correct one, drawn from the seen values and the extras. At least as many as the extras. |
| Options.PickOptions | quiz.js:109-122 | The correct answer is among the options, which are distinct and drawn from the pool. With a duplicate-free pool lacking the answer, there are 1 + min(3, pool size) options. |
| Options.EventPool | quiz.js:100-107 | The dynasty pool always has at least 14 wrong answers. |
| Options.LocationPool | quiz.js:130-137 | The city pool always has at least 9 wrong answers. |
| Options.YearPool | quiz.js:162-181 | The year pool always has at least 3 wrong answers. |
| Options.WrongYearsExample | quiz.js:166-180 | For "约公元前1045年" the distractors are 945年, 1145年, 845年 and 1245年. |
| Quiz.KindPool | quiz.js:100-185 | Every kind's candidate pool is duplicate-free, lacks the correct answer, and has at least three entries. |
| Quiz.GenerateDailyQuestion | quiz.js:73-214 | Without items the current question is kept. Otherwise the question asks about an item of the dataset for the chosen kind. Its correct answer is that item's dynasty, city or year, with exactly four distinct options: it and three from the kind's pool (seen values of that kind, then the fallbacks). Dated today. |
| Quiz.EveryItemReachable | quiz.js:79-92 | Every item of the flattened dataset is drawn by some index. |
| Quiz.Streak | quiz.js:47-64 | The counts and last quiz date are unchanged. The streak is either untouched or restarted or extended with today recorded. |
| Quiz.CheckDailyQuiz | quiz.js:42-70 | On the last quiz day it is a no-op. Otherwise the streak is updated and a question generated. The last quiz date and the counts are never changed. |
| Quiz.StreakCases | quiz.js:47-64 | No earlier date gives 1. A one-day gap adds 1. A longer gap restarts at 1. A last-quiz date later than today leaves the record. |
| Quiz.CheckTwiceCountsTwice | quiz.js:42-70 | Two checks on the day after the last quiz extend the streak by two. |
| Quiz.SelectAnswer | quiz.js:272-314 | The question count always rises by one. The correct count rises, and five points are awarded, exactly when the selection is correct; the award unlocks exactly the entries unlocked before or holding after it, with their rewards, and keeps the ids distinct. A wrong answer leaves the user record as it was. Today becomes the last quiz date, and correct ≤ total is kept. |
| Quiz.CorrectAward | quiz.js:300 | The five-point award leaves progress untouched, ends settled, and unlocks exactly the entries unlocked before or holding now. |
| Quiz.AnswerThenCheck | quiz.js:310 | After answering, a check on the same day does nothing. |
| Quiz.CheckKeepsConsistent | quiz.js:42-70 | The check keeps correct ≤ total. |
| Quiz.Accuracy | quiz.js:321-323 | 0 before any question. Otherwise within half a point of 100·correct/total, and at most 100 when correct ≤ total. |
| Quiz.GetQuizStats | quiz.js:338-347 | The counts and streak are copied. Accuracy is 100 when every answer was correct and 0 when none was. |
| Quiz.AccuracyExample | quiz.js:342-344 | Two right out of three show as 67. |
| Favorites.FindIndex | main.js:739 | The first position holding the key, or none iff no entry holds it. |
| Favorites.ToggleFavorite | main.js:737-758 | A present key is removed: the first entry with the key is spliced out, the other entries keep their order, and the stats are unchanged. An absent key is appended, and two points are awarded against the old favourites count. Every other key keeps its membership, and with distinct keys the pair's membership flips. |
| Favorites.RemovedKeys | main.js:741-742 | Splicing out a position removes exactly that key occurrence and keeps keys distinct. |
| Favorites.AddThenRemove | main.js:737-758 | Adding a pair and toggling it again restores the list. |
| Favorites.ToggleTwice | main.js:737-763 | Toggling a pair twice restores which keys are favourites. |
| Favorites.TogglesKeepDistinct | main.js:737-758 | Favourite keys stay pairwise distinct under any sequence of toggles. |
| Favorites.CollectorWaits | gamification.js:59-62 | The tenth favourite does not unlock `collector` through its own award. The next evaluation does. |
| Periods.AnyMarks | main.js:566-569 | True iff some keyword occurs in the item's dynasty or year. |
| Periods.IsItemInPeriod | main.js:553-570 | True iff one of the period's keywords occurs in the item's dynasty or year. |
| Periods.OutsideTable | main.js:565 | A period outside the table has no keywords (`periodMap[period] || []`), so no item belongs to it. |
| Periods.SelectInCity | main.js:525-538 | The city's items in the period, in item order. |
| Periods.SelectPeriod | main.js:521-539 | Exactly the items of the period, cities in dataset order and items in city order. |
| Periods.NorthernZhouTwice | main.js:553-570 | An item of dynasty 南北朝北周 belongs to both 夏商周 and 魏晋南北朝. |
| Periods.UnknownPeriod | main.js:565 | No item belongs to 清末, a period the table does not name. |
| Search.ItemCandidates | main.js:628-637 | A city's item hits are exactly its items matching by lower-cased title or description. |
| Search.Candidates | main.js:614-638 | Every hit is a city whose lower-cased name holds the keyword or a matching item of a city, and every such city and item is a hit. |
| Search.FirstByName | main.js:641-649 | Display names are distinct, every kept suggestion was scanned, and every scanned name is kept. |
| Search.FirstByNameFirst | main.js:641-649 | Each kept suggestion is the first one of its name in scan order. |
| Search.KeepStep | main.js:645-648 | A scanned suggestion is kept exactly when its name is unseen and fewer than five are kept. |
| Search.KeepFirstFive | main.js:641-649 | The loop keeps the first five first-by-name suggestions. |
| Search.TakeFirstByName | main.js:641-649 | At most five suggestions, names distinct, all scanned. |
| Search.SearchSuggestions | main.js:613-652 | The suggestions are the first five distinct-name hits: at most five, names distinct, every one a hit for the lower-cased keyword. |
| Provinces.StripSuffixes | main.js:330 | Never longer than the input, and no 省 or 市 remains. A name without suffix characters is unchanged. |
| Provinces.StripPlainHead | main.js:330 | A first character that starts no suffix is kept and the scan continues after it. |
| Provinces.StripAfterPlain | main.js:330 | A suffix-free prefix is kept as it is, followed by the scan of the rest. |
| Provinces.StripDropsProvinceAndCity | main.js:330 | Without 自 or 特 in the name, the result is the name with every 省 and 市 removed. |
| Provinces.StripOneSuffix | main.js:330 | A suffix-free name followed by 省, 市, 自治区 or 特别行政区 gives back the name. |
| Provinces.StripAutonomous | main.js:330 | 广西壮族自治区 strips to 广西壮族, not to the table's 广西. |
| Provinces.FuzzyMatch | main.js:336-340 | The short form of the first row the fuzzy rule accepts, or none iff no row does. |
| Provinces.Normalize | main.js:285-344 | An exact key gives its short form. Otherwise the stripped name when a record uses it, else the first fuzzy match, else the name itself. The result is always the name, its stripped form, or a table value. |
| Provinces.TableKeysCarrySuffix | main.js:287-322 | Every full name in the table contains one of the suffixes. |
| Provinces.NormalizeProvinceName | main.js:285-344 | A suffix-free name that some city record uses as its province comes back unchanged. |
| Provinces.NoRuleKeepsName | main.js:343 | A name no rule accepts comes back unchanged. |
| Provinces.ExactKey | main.js:325-327 | 广西壮族自治区 gives 广西 and 北京市 gives 北京, whatever the dataset. |
| Provinces.EmptyNameIsBeijing | main.js:336-340 | An empty name gives 北京 when no record has an empty province. |
| Cache.CheckVersion | main.js:60-66 | A stored version other than 2.0 drops data and time. The version is 2.0 afterwards. |
| Cache.LoadHistoryData | main.js:58-112 | Cached data is used iff it is under version 2.0, present, under 24 h old and parses. Otherwise the network is used iff the request succeeds; it saves the serialised data, the time the response was handled, and the version. When the request fails, cached data of version 2.0 that parses is used even when stale, and only then. Whenever the network does not supply the data, the stored entries are those the version check leaves, so data of another version is gone. |
| Cache.NothingLoaded | main.js:98-110 | The dataset stays unloaded exactly when the request fails and no parsable version-2.0 cached text exists. |
| Cache.OldVersionNeverRead | main.js:60-66 | Data cached under another version is never used. |
| Cache.SavedThenServed | main.js:93-97 | Data saved from the network is served from the cache within 24 h of the time saved with it. |
| Cache.ExpiredRefetches | main.js:77 | At 24 h or later, a successful request replaces the cache. |
| CityInfo.LearnStep | main.js:396-398 | Learning one more item of the city extends the learned-so-far state. |
| CityInfo.VisitStep | main.js:402-404 | The closing province visit keeps what learning established, records the province, and awards its point. |
| CityInfo.HoldsGrows | gamification.js:21-101 | An achievement condition that holds keeps holding while the learned and visited lists grow and the login history stays. |
| CityInfo.UnlockedChain | gamification.js:226-261 | Two recorder steps in a row unlock exactly the entries unlocked at the start or holding at the end. |
| CityInfo.OpenCity | main.js:394-404 | Every item key of the city is learned and its province visited, and nothing else; a first visit appends the province once and a known province leaves the list as it was. When every key and the province were already known, the record is unchanged. One point per new key and new province plus unlock rewards. Login fields are untouched and learned keys stay distinct. When anything was new, the record ends settled, with exactly the entries unlocked before or holding now. |
| CityInfo.ShowCityInfo | main.js:378-404 | An unknown city records nothing. For a known city, the first record of that name is opened with exactly the `OpenCity` outcome: its keys and province and nothing else, the points ledger, the login fields, and the unlocked entries. |

## Left out

- Rendering: the DOM, notifications, modals, tab switching, theme, lazy images, and `map.js` (chart configuration). These are presentation with no state to verify.
- Storage and parsing: `localStorage` reads and writes, `JSON.parse`/`stringify`, and the load functions (`loadUserStats`, `loadQuizData`, `loadFavorites`, `loadCurrentQuestion`). The stored records are the model's values. The code does not recover from a stored record that fails to parse, so no recovery is modelled.
- Cache save contents: the saved text is `JSON.stringify` of the received dataset and the saved time is the clock when the response was handled. Both are taken as given (`Cache.Fetched`); the serialiser and the clock are not modelled.
- Cache write failures: a failed save (for example a full storage quota) is not modelled. `Cache.LoadHistoryData` assumes the save succeeds.
- Timers: `debounce`, `throttle`, the 500 ms retry of `showCityInfo` on an unloaded dataset, and the startup polling. These are asynchronous scheduling; `CityInfo.ShowCityInfo` records nothing for an empty dataset.
- Dates: dates are day numbers. `toDateString` and the millisecond difference with `Math.floor` are not modelled, and neither is daylight-saving behaviour.
- Floating point: `Math.round` of a floating-point ratio is modelled as exact rounding of the rational value, halves rounding up.
- Randomness: `Math.random` draws and random-comparator sorts are choice parameters. No distribution is claimed.
- Unreachable padding: the option padding loop of `generateDailyQuestion` is not modelled. `Options.PickOptions` with `Quiz.KindPool` shows four options exist without it, for years whose first digit run is below 2^53 (see the next line).
- Options.WrongYears: reads the first digit run as an exact integer and writes N±100, N±200 exactly. JavaScript's `parseInt` and number formatting use doubles, so digit runs of 2^53 or more round, distinct sums can collide, and from 10^21 on the text is in exponent form ("1e+22年"). Those runs are not modelled; for such a year the four distractors can coincide and the padding loop need not end.
- Question text: the question and explanation strings are not carried. Neither is the stored `answers` field of `quiz_data`, which nothing reads.
- `showDailyQuiz`, `showProvinceInfo`, `updateGamification` and the display functions: presentation.
- Table lookups: keys that hit inherited object properties (such as `constructor`) in the province and period tables are not modelled; the tables are plain lists of pairs. The same holds for the dynasty tally built by `dynastyStats[dynasty] = (dynastyStats[dynasty] || 0) + 1` (gamification.js:398): there a dynasty named `constructor` starts from the inherited function and yields a string, and one named `__proto__` is not stored as a key at all, while `Progress.DynastyStats` is an exact map from every dynasty name to its count.
- Text.Lower: lower-cases ASCII letters only, whereas `toLowerCase` also folds other scripts. The dataset's names are Chinese, which have no case.
- Gamification.Outside: the favourites count and quiz streak are inputs, and the model does not derive them from the other records at each nested evaluation.
- Quiz.Streak: a quiz date later than today leaves the record, as the code does; the contract does not state more for that case.
