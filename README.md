# Movie app core, modelled in Dafny

This project models the core logic of a small movie-tracking web app. The
program flow it covers:

- A catalog of movies can be queried, listed and filtered.
- A signed-in user marks movies as watched and keeps a watchlist.
- Every watch is written to a per-day watch history.
- The history drives a daily streak.
- The watched list and the streak give milestone, genre, director, era and
  streak achievements.
- Two recommenders suggest unwatched movies. One uses achievements that are
  close to unlocking. The other uses average ratings per genre and director.
- A translation lookup and a locale path rewrite support the two site
  languages.

Modules, one per source file, plus three shared ones:

| module | models |
|---|---|
| `Wrappers`, `JsStrings`, `JsArrays` | the optional value and the JavaScript string and array built-ins the core calls: `split`, `join`, `trim`, `toLowerCase`, `includes`, `replace` with a global pattern, `parseInt`, `find`, `findIndex`, `filter`, `slice` and a stable `sort` |
| `Types` | the movie and user records, the streak summary, and browser storage as a map from keys to typed values |
| `Movies` | `src/data/movies.ts`, over a catalog given as a parameter |
| `Streak` | `src/lib/streak.ts`; today is a day number |
| `Achievements` | `src/lib/achievements.ts` |
| `AchievementRecommendations` | `src/lib/achievement-recommendations.ts` |
| `Recommendations` | `src/lib/recommendations.ts` |
| `AuthContext` | the `AuthProvider` of `src/context/auth-context.tsx`, as a class holding the user and the storage |
| `LanguageProvider` | `t`, the initial language and `changeLanguage` of `src/components/language-provider.tsx` |
| `LanguageSelector` | `getCurrentLanguage` and `getNewUrl` of `src/components/language-selector.tsx` |

How the code's form is kept:

- Loops that fill a set or an array step by step are methods with loop
  invariants. Examples are the listings, `filterMovies`,
  `calculateAchievements`, the preference tallies and the recommenders'
  `forEach` passes.
- Each such method is proved equal to a specification function.
- The properties are proved about those functions.
- Expression-only code is written as functions.
- The auth provider is a class whose methods update its `user` and `store`
  fields.

## Model

| member | source | states |
|---|---|---|
| Movies.GetRandomMovie | src/data/movies.ts:196-198 | some catalog movie is returned exactly when the catalog is non-empty |
| Movies.GetMovieById | src/data/movies.ts:200-202 | the first catalog movie with the id, or none exactly when no movie has it |
| Movies.GetAllGenres | src/data/movies.ts:204-212 | strictly sorted, so each genre appears at most once; a genre is listed iff some catalog movie has it |
| Movies.GetAllDirectors | src/data/movies.ts:214-220 | strictly sorted; a director is listed iff some catalog movie has that director |
| Movies.AddCountries | src/data/movies.ts:225-227 | the running list stays duplicate-free and gains exactly the trimmed parts |
| Movies.GetAllCountries | src/data/movies.ts:222-230 | strictly sorted; a country is listed iff it is a trimmed ", "-separated part of some movie's country field |
| Movies.AddDecade | src/data/movies.ts:235-237 | the running list stays duplicate-free and gains exactly the movie's decade label |
| Movies.DecadeLabel | src/data/movies.ts:236 | the label is non-empty and ends in "s" |
| Movies.DecadeLabelReadsBack | src/data/movies.ts:236 | `parseInt` reads from the label a multiple of ten at most the year and within ten of it |
| Movies.GetDecadesList | src/data/movies.ts:232-240 | strictly sorted; a label is listed iff it is `floor(year/10)*10` followed by "s" for some catalog movie |
| Movies.FilterMovies | src/data/movies.ts:242-282 | the criterion-by-criterion narrowing equals one filter of the catalog by the conjunction of the given criteria |
| Movies.FilterMoviesMembers | src/data/movies.ts:249-281 | a movie is kept iff it is in the catalog and meets every criterion that is given: genre listed, same director, decade, country substring, and case-insensitive search of title, director, synopsis or cast |
| Movies.NoCriteriaKeepsAll | src/data/movies.ts:249-281 | with no criterion given the result is the whole catalog, in order |
| Movies.Narrow | src/data/movies.ts:251-279 | filtering twice in a row is filtering once by the conjunction, which is why reassigning `filtered` keeps catalog order |
| Movies.DecadeLabelSelectsDecade | src/data/movies.ts:259-264 | the decade criterion "NNN0s" keeps exactly the years with the same decade label: the half-open range `[start, start+10)` |
| Movies.DecadeFilterIsMoviesByDecade | src/data/movies.ts:305-309 | filtering by a decade label returns the same movies as the inclusive `getMoviesByDecade(start, start + 9)` |
| Movies.GetMoviesByGenre | src/data/movies.ts:287-293 | exactly the catalog movies listing the genre, as a sub-multiset of the catalog |
| Movies.GetDirectorMovies | src/data/movies.ts:298-300 | exactly the catalog movies by the director, as a sub-multiset of the catalog |
| Movies.GetMoviesByDecade | src/data/movies.ts:305-309 | exactly the catalog movies with `startYear <= year <= endYear` |
| Movies.UnwatchedAmong | src/lib/recommendations.ts:147-148 | exactly the given movies whose id is not watched, in order and without new repetitions |
| Streak.SavedStreak | src/lib/streak.ts:52-66 | the stored streak record's four fields, or zeros and no dates when there is no parseable record |
| Streak.CalculateStreak | src/lib/streak.ts:15-141 | it writes at most the user's streak record, and only when the new record has today as last date, is active and has longest >= current; longest never falls below the saved longest |
| Streak.NoHistoryGivesZeroStreak | src/lib/streak.ts:16-25 | without a user or watched movies: zero streaks, no dates, inactive, no write |
| Streak.WatchAfterYesterdayExtends | src/lib/streak.ts:96-104 | a watch today after a last watch yesterday adds exactly one to the current streak, keeps the start, and updates and writes longest = max(old longest, current) |
| Streak.WatchAfterGapRestarts | src/lib/streak.ts:105-109 | a watch today with no last date or an older one restarts at 1 from today and writes the record |
| Streak.SameDayChangesNothing | src/lib/streak.ts:96-117 | when the last watch is already today, both counts and the dates stay, the streak reads active and nothing is written |
| Streak.NoWatchToday | src/lib/streak.ts:72-90 | with no watch today nothing is written; a last watch yesterday keeps it active and unchanged; an older one gives inactive, current 0 and no start date |
| Streak.CalculateStreakIdempotent | src/lib/streak.ts:96-130 | evaluating again on the store it wrote gives the same result and store |
| Streak.LongestNeverDecreases | src/lib/streak.ts:115-117 | the stored longest streak never decreases |
| Streak.AddWatch | src/lib/streak.ts:159-167 | today's list gains the movie only if it is absent; other days are unchanged |
| Streak.RecordMovieWatch | src/lib/streak.ts:146-179 | the history gets today's entry, the streak record is rewritten as active for today, and no other key changes; an unreadable history aborts the whole call |
| Streak.RecordMovieWatchIdempotent | src/lib/streak.ts:159-175 | recording the same watch twice on the same day leaves what one call leaves |
| Streak.RecordMovieWatchBounds | src/lib/streak.ts:96-117 | one recorded watch raises the stored current streak by at most one and never lowers the longest |
| Streak.RecordAgainSameDay | src/lib/streak.ts:146-179 | after a readable history, a second watch on the same day, of any movie, leaves the stored current and longest streak as the first left them |
| Streak.TwoWatchesSameDayExtendOnce | src/lib/streak.ts:146-179 | two watches on one day, of the same or different movies, raise the stored current streak by at most one in total and never lower the longest |
| Streak.StreakMilestoneMessage | src/lib/streak.ts:184-196 | a non-empty message exactly for the seven milestone lengths |
| Streak.HasReachedMilestoneToday | src/lib/streak.ts:201-203 | true exactly for 3, 7, 14, 30, 50, 100 and 365 |
| Streak.MilestoneMessageIffReached | src/lib/streak.ts:184-203 | a milestone message exists exactly for the values where `hasReachedMilestoneToday` holds |
| Achievements.MilestonesFacts | src/lib/achievements.ts:38-65 | one achievement per table row with `progress = min(count, max)`; unlocked iff count >= max |
| Achievements.GenreLevel | src/lib/achievements.ts:78-88 | the descending loop finds the number of thresholds reached and the largest reached threshold (the first one when none is reached) |
| Achievements.GenreLevelFacts | src/lib/achievements.ts:78-88 | the level is positive iff the count is at least 5; the level's threshold is reached and the next is not |
| Achievements.GenreAchievement | src/lib/achievements.ts:90-104 | the max is the next unreached threshold, or 100 when all are reached; unlocked iff count >= 5, so an unlocked tier may show progress below its max |
| Achievements.GenresMembers | src/lib/achievements.ts:70-106 | a genre achievement is present iff the user watched at least one catalog movie of that listed genre |
| Achievements.Hyphenate | src/lib/achievements.ts:119 | each whitespace character becomes '-' and nothing else changes |
| Achievements.DirectorAchievement | src/lib/achievements.ts:111-130 | the max is the director's catalog total, progress is the number of those movies the user has watched, unlocked iff progress reaches a positive max |
| Achievements.DirectorUnlockedIffAllWatched | src/lib/achievements.ts:111-130 | a director collection is unlocked iff the director has a catalog movie and every one of them is watched |
| Achievements.DirectorsMembers | src/lib/achievements.ts:111-130 | a director achievement is present iff the listed director has at least one catalog movie |
| Achievements.EraAchievement | src/lib/achievements.ts:146-164 | progress is the number of the decade's catalog movies the user has watched; `max = min(10, movies in the decade)`; unlocked iff progress >= max |
| Achievements.EraUnlockedIffEnoughWatched | src/lib/achievements.ts:146-164 | an era is unlocked iff every catalog movie of the decade is watched or at least ten of them are |
| Achievements.EmptyDecadeIsUnlocked | src/lib/achievements.ts:151-161 | a decade without catalog movies comes out unlocked with max 0 |
| Achievements.ErasFacts | src/lib/achievements.ts:146-164 | exactly one era achievement per decade row, in table order |
| Achievements.StreakAchievement | src/lib/achievements.ts:180-190 | `progress = min(longest, m)` and max m; unlocked iff longest >= m |
| Achievements.StreaksMembers | src/lib/achievements.ts:173-192 | a streak achievement for m is present iff m <= current or m <= longest |
| Achievements.Precedes | src/lib/achievements.ts:199-208 | unlocked before locked; within a group, with positive maxima, `a` comes first iff its ratio `progress / max` is at least `b`'s |
| Achievements.PrecedesTotalPreorder | src/lib/achievements.ts:199-208 | the comparator is a total preorder, so the sort is well defined |
| Achievements.CalculateAchievements | src/lib/achievements.ts:27-209 | the pushes and the sort produce exactly the specification list |
| Achievements.AchievementsOf | src/lib/achievements.ts:27-209 | no user gives the empty list; otherwise the result is a permutation of the five families |
| Achievements.AchievementsOrdered | src/lib/achievements.ts:198-208 | unlocked before locked; within a group the ratio `progress/max` does not increase (by cross-multiplication), with the 0/0 entries last |
| Achievements.AchievementsMembers | src/lib/achievements.ts:35-196 | an achievement is in the result iff it belongs to one of the five families |
| Achievements.StreakAchievementName | src/lib/achievements.ts:243-254 | a non-empty name for every day count |
| Achievements.GenreIcon | src/lib/achievements.ts:214-238 | a non-empty icon for every genre |
| Achievements.TrackedGenresHaveIcons | src/lib/achievements.ts:68-97 | every tracked genre has its own icon, not the fallback |
| AchievementRecommendations.AddRecommendation | src/lib/achievement-recommendations.ts:40-69 | at most one new entry, appended for the movie; existing entries keep their movies; every reason is the new one or an old one of the same entry |
| AchievementRecommendations.AddRecommendationEffect | src/lib/achievement-recommendations.ts:40-69 | afterwards the movie is present and carries the (type, achievement) pair; its reasons are the old ones with the new one appended when the pair is new, or the old ones with only the pair's slot possibly overwritten; that slot holds the new reason when its priority is strictly higher, the old one otherwise; other movies' entries are unchanged; the score rises by the priority for a new pair and not at all for a repeated one, replace branch included |
| AchievementRecommendations.AddRecommendationWellFormed | src/lib/achievement-recommendations.ts:40-69 | each movie stays in the list at most once, and each pair at most once per movie |
| AchievementRecommendations.EligibleAmong | src/lib/achievement-recommendations.ts:72-74 | exactly the locked achievements with progress > 0 whose id starts with the family prefix |
| AchievementRecommendations.RestAfter | src/lib/achievement-recommendations.ts:78-79 | the `^prefix(.+)$` match succeeds iff the id starts with the prefix and has a non-empty rest without line terminators, and it returns that rest |
| AchievementRecommendations.EraDigits | src/lib/achievement-recommendations.ts:154-155 | the `^era-(\d{4})s$` capture is four digits between "era-" and "s" |
| AchievementRecommendations.CapitalizeAll | src/lib/achievement-recommendations.ts:118-121 | every slug part has its first letter upper-cased |
| AchievementRecommendations.Candidates | src/lib/achievement-recommendations.ts:81-172 | candidates are unwatched catalog movies; for a genre id, the first two (or fewer) unwatched movies listing the genre rebuilt from the slug; for an era id, the first two (or fewer) unwatched movies from the ten years after the parsed start; for a director id, all of that director's unwatched movies; an id the family's pattern does not match gives none |
| AchievementRecommendations.GenreCandidates | src/lib/achievement-recommendations.ts:92-95 | at most two unwatched catalog movies that list the genre, a prefix of all of them in catalog order, and exactly two when there are that many |
| AchievementRecommendations.EraCandidates | src/lib/achievement-recommendations.ts:169-172 | at most two unwatched catalog movies from the decade's years, a prefix of all of them in catalog order, and exactly two when there are that many |
| AchievementRecommendations.Priority | src/lib/achievement-recommendations.ts:84-166 | genre bands 5..2, director 6..3, era 4..1 |
| AchievementRecommendations.PriorityMonotone | src/lib/achievement-recommendations.ts:84-166 | a larger completion ratio never gets a lower priority |
| AchievementRecommendations.RecommendMovies | src/lib/achievement-recommendations.ts:95-104 | the loop over one achievement's movies equals adding them in order |
| AchievementRecommendations.RecommendFamily | src/lib/achievement-recommendations.ts:76-105 | the loop over a family's achievements equals the specification pass |
| AchievementRecommendations.GetAchievementBasedRecommendations | src/lib/achievement-recommendations.ts:23-189 | the method computes exactly the specification result |
| AchievementRecommendations.AchievementRecommendations | src/lib/achievement-recommendations.ts:27-188 | no user gives []; the result has at most `count` entries |
| AchievementRecommendations.CollectedWellFormed | src/lib/achievement-recommendations.ts:40-182 | after the three passes every movie appears once, with each pair once |
| AchievementRecommendations.PassKeeps | src/lib/achievement-recommendations.ts:76-182 | a family pass adds only unwatched catalog movies, and only reasons from eligible achievements |
| AchievementRecommendations.RankedFacts | src/lib/achievement-recommendations.ts:184-188 | scores do not increase along the result; all movies are unwatched catalog movies; every reason comes from a locked, started genre, director or era achievement with that family's band |
| AchievementRecommendations.NextAchievementForMovie | src/lib/achievement-recommendations.ts:195-196 | no user gives none |
| AchievementRecommendations.NextAmong | src/lib/achievement-recommendations.ts:199-248 | the choice is an achievement of the simulated list that is newly unlocked or has progressed, and there is none exactly when no achievement did either |
| AchievementRecommendations.NewlyUnlockedAmong | src/lib/achievement-recommendations.ts:209-214 | exactly the simulated achievements that were locked in the current list and are unlocked now |
| AchievementRecommendations.ProgressedAmong | src/lib/achievement-recommendations.ts:229-233 | exactly the simulated ones that are still locked and whose progress strictly rose |
| AchievementRecommendations.NextAmongPrefersUnlocked | src/lib/achievement-recommendations.ts:216-226 | when something gets unlocked, the choice is a newly unlocked one: a milestone if any, else a collection if any |
| AchievementRecommendations.NextAmongPrefersLargestGain | src/lib/achievement-recommendations.ts:228-248 | otherwise the choice is a progressed one with the largest ratio gain, or none exactly when nothing progressed |
| AchievementRecommendations.GainOrderTotalPreorder | src/lib/achievement-recommendations.ts:234-246 | the gain comparator is a total preorder |
| Recommendations.StoredRating | src/lib/recommendations.ts:39-46 | no rating is read exactly when the rating key is missing or holds empty text; any other entry is parsed with `parseInt`, and a non-text record parses to nothing |
| Recommendations.EffectiveRating | src/lib/recommendations.ts:52 | the fallback to 3 never yields 0, and a parsed non-zero rating is kept as it is |
| Recommendations.RatingDefaults | src/lib/recommendations.ts:38-52 | an unrated movie counts as 3; a non-zero integer stored as decimal text is read back |
| Recommendations.Resolve | src/lib/recommendations.ts:32-34 | the resolved movies are catalog movies with watched ids, no more than the ids |
| Recommendations.ResolveMembers | src/lib/recommendations.ts:32-34 | an id is resolved iff it is watched and some catalog movie has it; unknown ids are dropped |
| Recommendations.RateMovies | src/lib/recommendations.ts:37-47 | every watched movie's id maps to its parsed stored rating |
| Recommendations.Tally | src/lib/recommendations.ts:50-61 | the keys, in first-seen order, are exactly the labels seen; each count is the number of occurrences and each total the rating sum |
| Recommendations.TallyEntry | src/lib/recommendations.ts:51-60 | one more movie's labels extend the tally to the longer history |
| Recommendations.TallyLabel | src/lib/recommendations.ts:55-59 | a known label gains 1 and the rating; a new key starts at 1 and the rating; other keys are unchanged |
| Recommendations.Preferences | src/lib/recommendations.ts:63-69 | the preference list is the averaged, sorted tally |
| Recommendations.PreferencesMeans | src/lib/recommendations.ts:63-68 | each preference has count = number of watched movies with that label (> 0) and score = total / count |
| Recommendations.PreferencesNames | src/lib/recommendations.ts:63-68 | a label has a preference iff some watched movie carries it |
| Recommendations.PreferencesOrdered | src/lib/recommendations.ts:69 | scores do not increase along the preference list |
| Recommendations.GenreEntries | src/lib/recommendations.ts:51-60 | one tally entry per watched movie: its genres and its rating |
| Recommendations.DirectorEntries | src/lib/recommendations.ts:73-82 | one tally entry per watched movie: its director and its rating |
| Recommendations.GenrePreferences | src/lib/recommendations.ts:24-29 | without a user or history, no genre preferences |
| Recommendations.DirectorPreferences | src/lib/recommendations.ts:24-29 | without a user or history, no director preferences |
| Recommendations.AnalyzeUserPreferences | src/lib/recommendations.ts:20-96 | the method computes both specification preference lists |
| Recommendations.ScoreMapOfDistinct | src/lib/recommendations.ts:115 | with distinct names, the map gives each preference its own score |
| Recommendations.MovieScore | src/lib/recommendations.ts:107-110 | a watched movie scores -1 |
| Recommendations.MovieScoreWeights | src/lib/recommendations.ts:112-128 | an unwatched movie scores twice the sum of its genres' scores, plus 1.5 times its director's score when there is one |
| Recommendations.GenreScoreDoubles | src/lib/recommendations.ts:116-120 | the accumulated genre part is twice the plain sum |
| Recommendations.CalculateMovieScore | src/lib/recommendations.ts:101-129 | the `score +=` loop computes the specification score |
| Recommendations.ScoreMovies | src/lib/recommendations.ts:147-157 | each unwatched movie is paired with its score, in order |
| Recommendations.TopMovies | src/lib/recommendations.ts:147-161 | at most `count` movies |
| Recommendations.TopMoviesChosen | src/lib/recommendations.ts:147-161 | only unwatched catalog movies, with non-increasing scores |
| Recommendations.TopMoviesBest | src/lib/recommendations.ts:158-161 | every unwatched catalog movie left out scores no more than any chosen one |
| Recommendations.RandomRecommendations | src/lib/recommendations.ts:167-170 | `min(count, catalog size)` movies (JavaScript `slice` semantics), drawn from the catalog without repetition |
| Recommendations.GetRecommendations | src/lib/recommendations.ts:134-162 | without history: an arbitrary selection of that size; with history: the top-scored unwatched movies |
| AuthContext.StoredUser | src/context/auth-context.tsx:67-73 | a user is restored exactly when storage holds a user record under "movieUser" |
| AuthContext.AuthProvider.constructor | src/context/auth-context.tsx:62-73 | after mount, the user is the stored one and storage agrees with it |
| AuthContext.AuthProvider.Login | src/context/auth-context.tsx:76-93 | a new user with the given fields and empty watched list and watchlist, stored under "movieUser" |
| AuthContext.AuthProvider.Logout | src/context/auth-context.tsx:96-99 | no user, and the "movieUser" entry removed; nothing else changes |
| AuthContext.AuthProvider.UpdateUser | src/context/auth-context.tsx:102-112 | a no-op without a user; otherwise the user becomes the shallow merge and is stored |
| AuthContext.Merge | src/context/auth-context.tsx:105-108 | each given field, all six of them, overrides, and every other field is kept |
| AuthContext.MergeNoChange | src/context/auth-context.tsx:105-108 | an empty patch changes nothing |
| AuthContext.MergeIdempotent | src/context/auth-context.tsx:105-108 | applying the same patch twice is applying it once |
| AuthContext.AuthProvider.MarkMovieAsWatched | src/context/auth-context.tsx:115-131 | a no-op without a user or for a watched id; otherwise the id is appended, stored, and the watch is recorded for the streak |
| AuthContext.WithWatchedMovie | src/context/auth-context.tsx:119-124 | nothing changes when the id is present; otherwise it is appended and no other field changes |
| AuthContext.WithWatchedMovieIdempotent | src/context/auth-context.tsx:119-124 | marking twice is marking once |
| AuthContext.AuthProvider.RemoveMovieFromWatched | src/context/auth-context.tsx:134-149 | every occurrence removed and stored; that movie's rating key deleted; a no-op without a user |
| AuthContext.WithoutWatchedMovie | src/context/auth-context.tsx:137-141 | the id is gone, membership of every other id is unchanged and no other field changes |
| AuthContext.WithoutWatchedMovieKeepsOrder | src/context/auth-context.tsx:137 | removal distributes over concatenation, so the rest keep their order |
| AuthContext.UnwatchUndoesWatch | src/context/auth-context.tsx:115-149 | removing a newly added id restores the user |
| AuthContext.AuthProvider.IsMovieWatched | src/context/auth-context.tsx:152-155 | true iff there is a user whose watched list has the id |
| AuthContext.AuthProvider.AddToWatchlist | src/context/auth-context.tsx:158-172 | a no-op without a user or for a listed id; otherwise the id is appended to the list (empty if missing) and stored |
| AuthContext.WithWatchlisted | src/context/auth-context.tsx:162-168 | the id becomes listed, others keep their membership and no other field changes |
| AuthContext.WithWatchlistedIdempotent | src/context/auth-context.tsx:162-168 | adding twice is adding once |
| AuthContext.AuthProvider.RemoveFromWatchlist | src/context/auth-context.tsx:175-188 | a no-op without a user or a watchlist; otherwise every occurrence is removed and the user stored |
| AuthContext.WithoutWatchlisted | src/context/auth-context.tsx:178-184 | the id is gone, others keep their membership; a missing watchlist is left missing |
| AuthContext.UnlistUndoesList | src/context/auth-context.tsx:158-188 | removing a newly added id restores the list |
| AuthContext.AuthProvider.IsInWatchlist | src/context/auth-context.tsx:191-194 | true iff there is a user with a watchlist that has the id |
| LanguageProvider.FromCode | src/components/language-provider.tsx:229 | exactly "en" and "es" are language codes, and reading a code back gives the same text |
| LanguageProvider.FromCodeOfCode | src/components/language-provider.tsx:5 | a language's code reads back as that language |
| LanguageProvider.Translation | src/components/language-provider.tsx:252-253 | the table entry when there is a non-empty one, otherwise the key itself |
| LanguageProvider.T | src/components/language-provider.tsx:251-262 | without params the translation is returned unchanged |
| LanguageProvider.UnknownKeyIsItsOwnTranslation | src/components/language-provider.tsx:253 | a key missing from the table translates to itself, with or without an empty parameter set |
| LanguageProvider.SubstituteAppend | src/components/language-provider.tsx:256-258 | parameters apply left to right: one more parameter replaces every `{name}` in the result so far |
| LanguageProvider.SubstituteOne | src/components/language-provider.tsx:257 | one parameter splits the text at every `{name}` and joins the pieces with the value's text |
| LanguageProvider.Substitute | src/components/language-provider.tsx:256-258 | parameters whose placeholders do not occur leave the text as it was |
| LanguageProvider.InitialLanguage | src/components/language-provider.tsx:226-238 | a saved "en" or "es" wins; otherwise Spanish iff the browser language's part before '-' is "es" |
| LanguageProvider.SavedLanguageIsRestored | src/components/language-provider.tsx:226-248 | a language saved by `changeLanguage` is the one chosen at the next mount |
| LanguageProvider.LanguageProvider.constructor | src/components/language-provider.tsx:219-220 | English, not yet on the client |
| LanguageProvider.LanguageProvider.Mount | src/components/language-provider.tsx:223-241 | on the client, with the initial language; storage untouched |
| LanguageProvider.LanguageProvider.ChangeLanguage | src/components/language-provider.tsx:243-248 | the language is always set; it is persisted only once mounted |
| LanguageProvider.LanguageProvider.Translate | src/components/language-provider.tsx:251-262 | without params, the current language's table lookup with key fallback |
| LanguageSelector.GetCurrentLanguage | src/components/language-selector.tsx:31-37 | path segment 1 when it is "en" or "es", otherwise "en" |
| LanguageSelector.GetNewUrl | src/components/language-selector.tsx:41-53 | with a code segment, the new path's segments are the old ones with segment 1 replaced by a code without '/'; otherwise the code and a "/" are put in front of the path |
| LanguageSelector.NewUrlPrefixesCode | src/components/language-selector.tsx:52 | otherwise the new path is "/" + code + the unchanged path |
| LanguageSelector.SwitchThenRead | src/components/language-selector.tsx:31-53 | for a path starting with "/", reading the language of the switched path gives the new code |
| JsStrings.JoinSplit | src/components/language-selector.tsx:43-48 | joining the parts of a split with the same separator gives the text back |
| JsStrings.ReplaceAllIsSplitJoin | src/components/language-provider.tsx:257 | a global replace is a split at the pattern joined with the replacement |
| JsStrings.ParseIntOfIntToString | src/lib/recommendations.ts:42 | `parseInt` reads back an integer's decimal text, followed by any non-digit suffix |
| JsArrays.SortBySorted | src/lib/recommendations.ts:69 | the stable insertion sort orders by any total preorder |
| JsArrays.SortStrings | src/data/movies.ts:211 | the default string sort of a duplicate-free list is strictly sorted and has the same elements |
| Types.KeysDistinct | src/lib/streak.ts:28-52 | the history, streak, rating, user and language keys never collide |

## Left out

- Browser storage is a map from keys to typed values: a user record, a history record, a streak record, or raw text.
  - JSON encoding is not modelled.
  - Text that is not the JSON the reader expects is raw text, and readers treat it as absent.
  - This includes raw text under "movieUser", where the real `JSON.parse` would throw on mount.
  - In `recordMovieWatch`, an unreadable history aborts the whole call, as the source's `try`/`catch` does.
- The clock is a parameter.
  - Dates are day numbers, and "yesterday" is today - 1.
  - The UTC-versus-local mismatch of src/lib/streak.ts:74-86 is not modelled.
  - `Date.now()` (the login id) and `new Date().toISOString()` (the join date) are arguments of `Login`.
- Randomness: `getRandomMovie` and the shuffle of `getRandomRecommendations` are nondeterministic choices of a catalog movie or a selection without repetition.
- The catalog is a parameter. The ten literal movies are not reproduced.
- Movie years are integers. The catalog stores them as text, and `getMoviesByDecade` compares that text with numbers through coercion.
- The achievement `icon` and `description` fields, the recommendation reason's `message`, `unlockedAt` timestamps and display percentages are not modelled. The reason keeps its type, achievement id and priority. The icon table of the genre tiers (`GenreIcon`) and the streak milestone messages are modelled.
- Default arguments are not modelled. `count` is an explicit argument of `AchievementRecommendations` and `GetRecommendations`; the source defaults it to 5 (src/lib/achievement-recommendations.ts:25) and to 6 (src/lib/recommendations.ts:136).
- Floating point: percentages and ratios are compared exactly.
  - Bands and the achievement sort use integer cross-multiplication.
  - Averages and weights use Dafny's exact `real`.
- The achievement comparator puts 0/0 ratios last in their group. In JavaScript, `0/0` is NaN and makes the comparator's order implementation-defined.
- `Object.entries` order:
  - Tallies keep first-seen order, which matches JavaScript for non-numeric keys.
  - Integer-like keys, which JavaScript lists first in numeric order, are not modelled.
  - Inherited prototype keys are not modelled.
- `LanguageProvider.Translation`: a key naming an inherited `Object.prototype` member (such as "toString") would make `translationObj[key]` that member in JavaScript. The tables are modelled as plain maps, so such a key is missing and comes back as itself.
- LanguageProvider.T: placeholder names are matched literally. Names with regular-expression metacharacters and `$` patterns in replacement values are not modelled. Numeric parameters are integers only.
- The translation tables are passed to `T` as parameters. Only `Translations` and `LanguageProvider.Translate` read the constant tables. No lemma states that the two tables have the same keys.
- `parseInt` is modelled for optionally signed decimal digits after leading whitespace. Hexadecimal prefixes and results too large for a double are not modelled.
- `toLowerCase` and `toUpperCase` map ASCII letters only. Unicode case mapping is not modelled.
- String order compares Unicode scalar values. JavaScript's default `sort` compares UTF-16 code units, which order characters beyond U+FFFF before U+E000–U+FFFF; that difference is not modelled.
- `updateUser` takes a patch of optional fields. Setting a required field to `undefined` is not modelled.
- The async delay of `login`, the `isLoading` flag, React state batching and rendering are not modelled, and neither are the pages and components.
- A stored rating that is a non-text record counts as unparsable, so it counts as 3.
- The replace branch of `addRecommendation` leaves the score unchanged, as written. It is modelled as the code does it, and the achievement ids of one family are distinct in practice.
