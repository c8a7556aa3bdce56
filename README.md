# Survey assessment backend: a verified model of its business rules

This project models, in Dafny, the business rules of the survey-assessment backend. That backend is a
FastAPI service that scores a systems-analyst skills assessment, runs quiz attempts, and authenticates
users. The model covers:

- **The scoring engine** (`calculate_scores`). It computes per-category points and percentages, the
  weighted overall score over all nine configured categories, the proficiency level, strengths (score of
  70 or more), weaknesses (score under 60) and one detail record per answered question. Weights are kept
  in integer tenths (1.2 is 12), and Python's `round` is round-half-to-even on exact rationals. The loop is
  a method proved equal to a recursive specification.
- **The catalogue** (`CATEGORIES`, `LEVELS`, `get_level`). The tier lookup is a first-match function with
  its table invariants.
- **The quiz endpoints**:
  - quiz-id normalisation;
  - question retrieval in the quiz's own order;
  - the `quiz_attempts` table, as a class with `Start` and `Submit` methods proved against specification
    functions;
  - the max-attempts guard and the in-progress guard;
  - the pass rule and the level lookup over a quiz's `level_config`.
- **The auth endpoints**, as one class `AuthDb` over three tables: users, refresh-token records and
  verification codes. Register, verify-email, login, refresh, logout, forgot-password and reset-password
  are each a method proved equal to a specification function of the tables. Lemmas state what each one
  changes, which errors it reports, and how the endpoints interact.
- **The auth helpers**, in an algebraic form. JWT encode/decode, bcrypt, the SHA-256 pre-hash and digest,
  and UUID printing are values of a `Primitives` datatype. The predicate `Lawful` states the contracts the
  helpers rely on:
  - a signed token decodes, if at all, to exactly its claims, and, when it carries no other claim
    the library checks (`aud`, `nbf`, `iat`, `jti`, `at_hash`), until its `exp` second has passed;
  - `checkpw` accepts what `hashpw` produced;
  - bcrypt hashes are non-empty;
  - UUIDs print and parse back.
- **Small state and pure helpers**:
  - the 300-second question cache (a class with the two module globals as fields);
  - the quick-test answer generator (a loop method), the quick-test switch, and the public result
    projection;
  - the recommendations fallback text;
  - the request schemas;
  - the API-key dependency;
  - the CORS-origins validator;
  - the quiz-content migration script.

Time is a natural number of microseconds since the epoch. A JWT `exp` is the floor of the expiry in
seconds. `time_spent_seconds` truncates toward zero, as `int()` of a float does. The model reads
one `now` per request: every clock read of a handler is that same `now` (see Left out for the handlers
that read the clock more than once).

Randomness is a parameter:

- `uuid4` is `newId`;
- `bcrypt.gensalt` is `salt`;
- `random.randint` is `codeNumber`;
- `random.random` and `random.choice` are a `Draw` per question.

The database and the document store are values:

- sequences of rows for the relational tables;
- a map of quiz documents and a sequence of questions for the document store.

`scalar_one_or_none` is `Select`: no row, one row, or more than one, which is an error (500). The unique
indexes of the schema are the predicate `Consistent`, and every handler keeps it. A write that would
break an index fails with a server error and changes nothing, because the handler's transaction is
rolled back.

Three behaviours of the code are easy to misread. The model follows the code in each:

- **Login and unverified emails.** Login refuses an account whose email is not verified with 403
  (app/auth/router.py:240-244), so an unverified account never receives tokens.
- **Several redeemable codes.** Verification and reset codes are looked up with `scalar_one_or_none`
  (app/auth/router.py:171-181 and 413-423). When more than one redeemable code has the value, the
  call raises and the request fails with 500; no code, not even the most recent, is preferred.
- **The quiz level lookup.** The comments at app/routers/quizzes.py:281 and 283 say it finds the
  highest matching level, but both loops keep the last matching `level_config` key. Submit records
  that key, as the code does. The corrected lookup is modelled beside it and used by no endpoint;
  see Findings.

## Model

| member | source | states |
|---|---|---|
| Catalog.CategoriesWellFormed | app/utils/__init__.py:3-13 | nine categories with distinct keys and positive weights summing to 9.9 (99 tenths) |
| Catalog.FirstAtMost | app/utils/__init__.py:25-27 | the index found is the first tier whose minimum the score reaches; every earlier tier's minimum is above the score |
| Catalog.LevelIndex | app/utils/__init__.py:23-28 | get_level always returns a tier of the table (the last one when nothing matches) |
| Catalog.MinScoresDecrease | app/utils/__init__.py:16-20 | tier minima strictly decrease down the table and the last is 0 |
| Catalog.GetLevelIsFirstMatch | app/utils/__init__.py:23-28 | every score of 0 or more matches a tier, whose minimum it reaches, and no earlier tier matches; a negative score gets the last tier, Junior |
| Catalog.GetLevelMatchesThresholds | app/utils/__init__.py:15-28 | get_level agrees with the plain threshold chain 85/70/55/40 |
| Catalog.LevelBoundaries | app/utils/__init__.py:16-20 | 85 is Senior, 84 and 70 Middle+, 69 and 55 Middle, 54 and 40 Junior+, 39, 0 and -1 Junior |
| Catalog.GetLevelMonotone | app/utils/__init__.py:16-27 | a higher score never yields a lower tier |
| Catalog.NextLevelLinks | app/utils/__init__.py:16-20 | each tier below Senior names the tier directly above as nextLevel, with that tier's minimum as nextLevelScore |
| Rounding.RoundHalfEven | app/services.py:79 | the result is within half of the exact quotient, and a tie goes to the even neighbour |
| Rounding.RoundIsNearest | app/services.py:89 | no integer is strictly closer to the quotient than the rounded value |
| Rounding.RoundExact | app/services.py:79 | an exact quotient rounds to itself |
| Rounding.RoundMonotone | app/services.py:89 | rounding is monotone in the numerator |
| Rounding.RoundPercentInRange | app/services.py:79 | a ratio between 0 and 1 rounds to a percentage between 0 and 100 |
| Time.TruncDiv | app/routers/quizzes.py:299 | the quotient truncates toward zero: bounds for both signs of the numerator |
| Time.TruncDivNegate | app/routers/quizzes.py:299 | truncating division is symmetric about zero, unlike Euclidean division |
| Time.EpochSeconds | app/auth/utils.py:72 | the `exp` timestamp is the whole second containing the expiry instant |
| Text.NatToDecimal | app/auth/utils.py:150 | decimal text of a number is non-empty digits with no leading zero unless it is "0" |
| Text.DecimalRoundTrip | app/auth/utils.py:150 | reading back the decimal text of a number gives the number |
| Text.DecimalLength | app/auth/utils.py:150 | a number in [10^(k-1), 10^k) has k decimal digits |
| Text.StripSpec | app/config.py:38 | `str.strip` removes exactly the leading and trailing whitespace and keeps the middle |
| Text.StripIdempotent | app/config.py:38 | stripping twice equals stripping once |
| Text.SplitCount | app/config.py:38 | `str.split(c)` gives one more piece than there are separators, none containing the separator |
| Text.JoinSplit | app/config.py:38 | joining the pieces of a split with the separator gives back the string |
| Text.ReplaceCharChars | scripts/migrate_quiz_content.py:58 | after `replace(c, t)` every character is either from the string and not c, or from t; a string without c is unchanged |
| Dicts.GetPut | app/auth/utils.py:72 | after `d[k] = v`, `d[k]` is v and every other key reads as before |
| Dicts.PutFresh | app/auth/utils.py:72 | assigning a new key appends it at the end of the dict |
| Dicts.GetHasKey | app/auth/utils.py:134 | `d.get(k)` finds a value exactly when k is a key |
| Scoring.BestIndexIsFirstMax | app/services.py:33 | `max` over the weights picks an entry with the largest value, the first such in dict order |
| Scoring.WeightOfIsLookup | app/services.py:44 | `weights.get(answer, 0)` is 0 for an absent option and the option's weight otherwise |
| Scoring.MaxScoreIsLargestWeight | app/services.py:30-38 | the max score is the largest weight and the correct answer the key holding it; without weights the max is 5 and the correct answer "" |
| Scoring.CorrectAnswerEarnsMax | app/services.py:33-44 | choosing the correct answer earns the max score |
| Scoring.EarnedWithinMax | app/services.py:41-45 | with non-negative weights an answer earns between 0 and the max score |
| Scoring.ScanFindsTexts | app/services.py:48-59 | with distinct option values the early-exit scan finds exactly the texts of the chosen and of the correct option ("" when absent) |
| Scoring.FindAnswerTexts | app/services.py:48-59 | the scan loop computes the scan specification |
| Scoring.FirstUnknown | app/services.py:40 | the question reported is the first whose category is not configured |
| Scoring.MapDomain | app/services.py:22-23 | the keys of both accumulators are exactly the configured categories |
| Scoring.AchievedMapPerCategory | app/services.py:41-45 | a category's accumulated points are the sum of what its answered questions earn |
| Scoring.MaxPossibleMapPerCategory | app/services.py:40 | a category's available points are the sum of the max scores of all its questions, answered or not |
| Scoring.MapsCover | app/services.py:22-23 | every configured category has an entry in both accumulators |
| Scoring.CategoryScores | app/services.py:77-84 | there is one category record per configured category |
| Scoring.AppendMaxima | app/services.py:40 | one more question adds its max score to its own category and nowhere else |
| Scoring.AppendAchieved | app/services.py:41-45 | one more question adds its points to its own category, only when it was answered |
| Scoring.AppendDetails | app/services.py:43-74 | one more answered question appends exactly its detail record |
| Scoring.AddScores | app/services.py:40-45 | one iteration's dict updates extend both accumulators by one question |
| Scoring.AddDetail | app/services.py:43-74 | one iteration's detail step extends the detail list by one question |
| Scoring.Accumulate | app/services.py:22-74 | the loop fails with a KeyError exactly when some category is unknown, at the first such question; otherwise it returns both accumulators and the detail list of the whole question list |
| Scoring.CalculateScores | app/services.py:11-107 | calculate_scores returns exactly the scoring specification |
| Scoring.UnknownAt | app/services.py:40 | the loop stops at the first question with an unknown category |
| ScoringFacts.ScoreCategory | app/services.py:77-84 | category record i carries category i's key, name, weight and its rounded percentage |
| ScoringFacts.AchievedWithinMax | app/services.py:40-45 | with non-negative weights a category earns between 0 and its available points |
| ScoringFacts.CategoryPercentInRange | app/services.py:79 | a category percentage lies between 0 and 100 |
| ScoringFacts.WeightedSumBounds | app/services.py:87 | the weighted sum of percentages lies between 0 and 100 times the total weight |
| ScoringFacts.CatalogueWeights | app/services.py:88 | the category records carry the catalogue's total weight |
| ScoringFacts.RoundWithinPercent | app/services.py:89 | the weighted mean rounds into 0..100 |
| ScoringFacts.OverallInRange | app/services.py:86-89 | the overall score lies between 0 and 100 when every percentage does |
| ScoringFacts.ScoresInRange | app/services.py:76-89 | with non-negative weights every category score and the overall score lie in 0..100 |
| ScoringFacts.ScoreLevel | app/services.py:91-94 | the level returned is a copy of get_level's tier for the overall score (the tier the 85/70/55/40 thresholds give), with the same name, description, next level and years, and with minScore and nextLevelScore as decimal text that reads back as the tier's numbers |
| ScoringFacts.UnaskedCategory | app/services.py:79 | a category without questions has nothing available or earned and scores 0, yet still counts in the mean |
| ScoringFacts.AllCorrectEarnsAll | app/services.py:40-45 | answering every question correctly earns every available point |
| ScoringFacts.AllCorrectScoresHundred | app/services.py:79 | all-correct answers score 100 in every category that was asked about |
| ScoringFacts.AllWrongEarnsNothing | app/services.py:41-45 | when every answer is worth 0, nothing is earned |
| ScoringFacts.AllWrongScoresZero | app/services.py:79-89 | when nothing is earned, every category and the overall score are 0 |
| ScoringFacts.ZeroWeightedSum | app/services.py:87 | all-zero percentages have weighted sum 0 |
| ScoringFacts.StrengthsAreHighScores | app/services.py:96-100 | the strengths are exactly the categories scoring 70 or more, each once, in category order: entry k is the name and score of the k-th qualifying category |
| ScoringFacts.WeaknessesAreLowScores | app/services.py:101-105 | the weaknesses are exactly the categories scoring under 60, each once, in category order: entry k is the name and score of the k-th qualifying category |
| ScoringFacts.StrengthsWeaknessesSeparate | app/services.py:96-105 | strengths and weaknesses are disjoint, and a score of 60-69 is in neither |
| ScoringFacts.DetailsFollowAnswers | app/services.py:43-74 | there is one detail record per answered question, in question order, each for that question |
| ScoringFacts.DetailContents | app/services.py:61-73 | a detail record holds the question id, the answer, its points, the max score, the correct answer and, with distinct options, both option texts |
| ScoringFacts.WeightedSumOfOne | app/services.py:87 | when only one category scores, the weighted sum is that category's weighted score |
| ScoringFacts.OneDatabaseQuestionScores | app/services.py:76-84 | one correctly answered database question scores 100 there and 0 in every other category |
| ScoringFacts.OtherCategoryZero | app/services.py:79 | a single question leaves every other category at 0 |
| ScoringFacts.OneCorrectDatabaseOverall | app/services.py:86-89 | that one perfect category out of nine gives overall round(1100 / 99) = 11 |
| ScoringFacts.OneCorrectDatabaseAnswer | app/services.py:86-94 | that answer sheet scores 11 overall, level Junior |
| Quizzes.NormalizeQuizId | app/routers/quizzes.py:35-36 | the id always starts with "quiz:", is unchanged exactly when it already did, and ends with the given id |
| Quizzes.NormalizeIdempotent | app/routers/quizzes.py:35-36 | normalising twice equals normalising once |
| Quizzes.FetchMembers | app/routers/quizzes.py:96-98 | the `$in` query returns exactly the stored questions whose id is listed |
| Quizzes.IdMapEntries | app/routers/quizzes.py:110 | the id map has exactly the fetched ids, each mapped to a fetched question with that id |
| Quizzes.InIdOrderComplete | app/routers/quizzes.py:111 | when every listed id is in the map, the result has one question per listed id, in list order |
| Quizzes.MissingIdsAreUnstored | app/routers/quizzes.py:102-103 | an id is reported missing exactly when it is listed and no stored question carries it |
| Quizzes.GetQuizQuestionsAsWritten | app/routers/quizzes.py:72-113 | the questions endpoint as written fails only with a 404, and a missing-questions 404 names only ids the quiz lists (possibly none) |
| Quizzes.GetQuizQuestions | app/routers/quizzes.py:72-113 | the corrected endpoint fails only with a 404, and a missing-questions 404 names at least one id, all of them listed by the quiz |
| Quizzes.GetQuizQuestionsSpec | app/routers/quizzes.py:72-113 | the questions come back one per listed id, in quiz order, each stored; 404 exactly when the quiz is unknown, lists no ids, or lists an unstored id, naming exactly the missing ids |
| Quizzes.RepeatedIdRefused | app/routers/quizzes.py:100-107 | as written, a quiz listing one stored id twice is refused with an empty missing set; the corrected lookup returns the question twice |
| Quizzes.StoredDuplicateHidesMissing | app/routers/quizzes.py:100-111 | as written, two stored questions sharing an id hide a missing one, and the call succeeds with fewer questions; the corrected lookup reports the missing id |
| Quizzes.LastMatchSpec | app/routers/quizzes.py:278-280 | the forward loop's result is a key the score reaches with no reached key after it, or None when none is reached |
| Quizzes.LastMatchAt | app/routers/quizzes.py:284-287 | the reversed loop's first reached key is the last match |
| Quizzes.LevelFromConfigAsWritten | app/routers/quizzes.py:274-287 | the two loops as written both compute the last reached key |
| Quizzes.BestMatch | app/routers/quizzes.py:281-287 | the index chosen is one the score reaches |
| Quizzes.BestMatchSpec | app/routers/quizzes.py:281-287 | no reached entry has a greater minimum than the one chosen, and None only when nothing is reached |
| Quizzes.HighestMatchSpec | app/routers/quizzes.py:281-287 | the corrected lookup (used by no endpoint) names the reached level with the greatest minimum |
| Quizzes.LevelFromConfig | app/routers/quizzes.py:274-287 | the one-pass corrected loop (used by no endpoint) computes the highest reached level |
| Quizzes.LevelFor | app/routers/quizzes.py:273-290 | with a level_config the level is None exactly when no entry's minimum is reached, and otherwise a reached entry's key; without one a level is always recorded |
| Quizzes.FindLive | app/routers/quizzes.py:230-238 | the submit query finds a row exactly when one has the id, the caller, the quiz and no deletion |
| Quizzes.CategoryScoreList | app/routers/quizzes.py:308-310 | category_scores has one entry per category record |
| Quizzes.StartSpec | app/routers/quizzes.py:116-202 | a refused start leaves the table as it was; a successful one keeps every row and appends one in-progress attempt of the caller with the new id, which the response names |
| Quizzes.SubmitSpec | app/routers/quizzes.py:205-312 | a submission never adds or removes rows; a refused one changes nothing; a successful one returns a completed attempt of the caller |
| Quizzes.AttemptTable.Start | app/routers/quizzes.py:116-202 | start_quiz's response and new table are those of the start specification, and attempt ids stay unique |
| Quizzes.AttemptTable.Submit | app/routers/quizzes.py:205-312 | submit_quiz's response and new table are those of the submit specification, with the level found by the lookup as written, and attempt ids stay unique |
| QuizFacts.StartOutcome | app/routers/quizzes.py:139-162 | a start is refused for max attempts exactly when max_attempts is truthy and the caller has that many live attempts; it succeeds exactly when the quiz exists, the limit allows and the new id is free; a success appends one in-progress attempt of the caller at the normalised quiz id, started now, and raises only the caller's count; a refusal changes nothing |
| QuizFacts.StartWithinLimit | app/routers/quizzes.py:139-154 | a successful start never takes the caller past a truthy max_attempts |
| QuizFacts.UnlimitedNeverRefuses | app/routers/quizzes.py:139-140 | with max_attempts None or 0 a start is never refused for the count |
| QuizFacts.StartKeepsIdsUnique | app/routers/quizzes.py:157-164 | a start keeps attempt ids distinct |
| QuizFacts.StartQuestionsAgree | app/routers/quizzes.py:166-174 | a started attempt comes with the same questions, in the same order, as the questions endpoint gives |
| QuizFacts.SubmitFailureKeepsRows | app/routers/quizzes.py:222-258 | a refused submission changes no row |
| QuizFacts.SubmitNeedsInProgress | app/routers/quizzes.py:246-250 | submitting an attempt that is not in progress is refused with its status, and changes nothing |
| QuizFacts.SubmitCompletes | app/routers/quizzes.py:222-312 | a success completes exactly the caller's live in-progress attempt with that id, keeping its identity, and records completion now, the whole seconds spent and the result id; no other row changes |
| QuizFacts.SubmitRecordsScores | app/routers/quizzes.py:269-312 | a success records score = overall of the quiz's questions; the level is the last level_config key the score reaches (as written) or, without a level_config, the lower-cased tier name; passed iff score >= passing_score (50 by default); every category's score in catalogue order; the strengths and weaknesses |
| QuizFacts.SubmitOnMigratedConfigRecordsJunior | app/routers/quizzes.py:274-303 | on a quiz with the migrated level_config every successful submission scoring 0 or more records the level "junior" |
| QuizFacts.SubmitScoresInRange | app/routers/quizzes.py:269-303 | with non-negative weights the recorded score and every category score lie in 0..100 |
| QuizFacts.SubmitAtMostOnce | app/routers/quizzes.py:246-250 | an attempt completes at most once: a second submission is refused and changes nothing |
| QuizFacts.SubmitKeepsIdsUnique | app/routers/quizzes.py:302-312 | a submission keeps attempt ids distinct |
| Migrate.NormalizeLevelKeyIsReplaceChain | scripts/migrate_quiz_content.py:58 | the one-pass key equals lower-casing followed by the two replace calls |
| Migrate.LevelKeyShape | scripts/migrate_quiz_content.py:58 | a level key contains neither '+' nor '/' |
| Migrate.PlainName | scripts/migrate_quiz_content.py:58 | a name without '+' or '/' is only lower-cased |
| Migrate.KeyConcat | scripts/migrate_quiz_content.py:58 | key normalisation works piece by piece |
| Migrate.PlusName | scripts/migrate_quiz_content.py:58 | a trailing '+' becomes "_plus" ("Middle+" is "middle_plus") |
| Migrate.SlashName | scripts/migrate_quiz_content.py:58-59 | an inner '/' becomes '_' ("Lead/Architect" is "lead_architect") |
| Migrate.BuildCategoriesConfig | scripts/migrate_quiz_content.py:39-46 | the categories loop builds the categories configuration of the catalogue |
| Migrate.CategoriesConfigEntries | scripts/migrate_quiz_content.py:39-46 | with distinct keys, entry i is category i's key with its entry |
| Migrate.CategoriesConfigMatchesCatalogue | scripts/migrate_quiz_content.py:39-46 | categories_config has exactly the catalogue's keys, in order, with name, icon and weight copied |
| Migrate.UnlistedLevelIcon | scripts/migrate_quiz_content.py:62 | a level missing from the icon table gets the default icon |
| Migrate.BuildLevelConfig | scripts/migrate_quiz_content.py:56-66 | the levels loop builds the level configuration of the tier table |
| Migrate.LevelConfigEntries | scripts/migrate_quiz_content.py:57-66 | with distinct keys, entry i is tier i's normalised key with its entry |
| Migrate.LevelKeysDistinct | scripts/migrate_quiz_content.py:57-60 | no two tiers share a key, so no tier overwrites another |
| Migrate.JuniorKey | scripts/migrate_quiz_content.py:58 | the bottom tier is keyed "junior" |
| Migrate.LevelConfigMatchesLevels | scripts/migrate_quiz_content.py:57-66 | level_config has one entry per tier in tier order, with the tier's minimum and the normalised next level |
| Migrate.MigratedLookupAlwaysJunior | app/routers/quizzes.py:274-287 | with the migrated configuration the lookup as written gives "junior" for every score of 0 or more |
| Migrate.MigratedMinimaDecrease | scripts/migrate_quiz_content.py:57-61 | the migrated minima strictly decrease down the configuration |
| Migrate.MigratedHighestMatchIsGetLevel | scripts/migrate_quiz_content.py:57-66 | with the migrated configuration the corrected lookup names the key of get_level's tier |
| Migrate.StoredIds | scripts/migrate_quiz_content.py:35-36 | question_ids lists every stored question's id, in fetch order |
| Migrate.MigrateIdempotent | scripts/migrate_quiz_content.py:29-32 | running the migration twice equals running it once; the quiz then exists, and a newly written one has passing score 50 and unlimited attempts |
| Migrate.QuizContent.MigrateQuizContent | scripts/migrate_quiz_content.py:22-94 | the script inserts the quiz document unless one with its id exists |
| Cache.HitWithinTtl | app/cache.py:18 | a cached list is served, and neither global changes, at any time up to and including 300 seconds after the update, including a clock that has gone back before the update |
| Cache.FirstCallFetches | app/cache.py:18-29 | the first call fetches, and a fetch stores the list with the current time |
| Cache.ServedUntilTtl | app/cache.py:18-31 | after any call the list it returned is served until the TTL; exactly at the TTL is a hit, one microsecond later a fetch |
| Cache.EmptyListCached | app/cache.py:18-28 | a fetched empty list is cached and served until the TTL expires |
| Cache.QuestionCache.constructor | app/cache.py:6-7 | the globals start as no list and time 0 |
| Cache.QuestionCache.GetCachedQuestions | app/cache.py:10-31 | the call returns, and leaves the globals at, what the cache specification gives |
| Config.ValidateCorsOrigins | app/config.py:35-39 | the validated value is always a list |
| Config.CorsPieces | app/config.py:38 | a string yields one origin per comma-separated piece, one more than its commas, each its piece stripped, with no comma and no surrounding whitespace |
| Config.CorsIdempotent | app/config.py:39 | a list passes through unchanged, so validating twice equals validating once |
| Config.CorsRoundTrip | app/config.py:38 | joining the origins with commas gives back a string whose pieces had no surrounding whitespace |
| Config.SingleOrigin | app/config.py:38 | a string with no comma and no surrounding whitespace is a single origin |
| Config.DefaultCorsOrigins | app/config.py:17 | the default "http://localhost:3000" yields a one-element list |
| Deps.VerifyApiKey | app/deps.py:5-7 | a request is admitted exactly when the header is present, non-empty and equal to API_KEY; otherwise 401 |
| Deps.EmptyKeyAdmitsNobody | app/deps.py:6 | with an empty API_KEY every request is refused, the empty header included |
| Results.Pick | app/routers/results.py:186 | `random.choice` returns a member of the list |
| Results.SheetShape | app/routers/results.py:180-208 | the sheet's keys are exactly the keys assigned, its values among those assigned |
| Results.SheetLastWins | app/routers/results.py:208 | each key holds its last assigned value |
| Results.GenerateQuickTestAnswers | app/routers/results.py:176-210 | the loop builds the sheet of the drawn answers for all questions |
| Results.QuickAnswerOptions | app/routers/results.py:183-206 | every answer is one of a..i; for expert, intermediate and beginner it is one of a..c exactly when the roll is below 0.8, 0.6 or 0.3; any other type draws from all nine |
| Results.QuickTestKeys | app/routers/results.py:180-210 | the sheet has a key for every question id and no other |
| Results.QuickTestLastAnswer | app/routers/results.py:208 | each id holds the answer drawn for its last question |
| Results.QuickTestOptions | app/routers/results.py:183-208 | every answer on the sheet is one of a..i |
| Results.QuickTestGate | app/routers/results.py:118-122 | the quick-test endpoints answer 404 exactly when the switch is off |
| Results.QuickTestSwitch | app/routers/results.py:118 | the switch is off when ENABLE_QUICK_TEST is unset, and ignores letter case |
| Results.PublicView | app/routers/results.py:98-110 | a null user makes the view raise (500); otherwise missing strengths, weaknesses and question details become empty lists |
| Results.ViewHidesOtherUserFields | app/routers/results.py:98-99 | only the user's name and experience are exposed: changing the email or any other user field changes nothing |
| Results.ViewKeepsResult | app/routers/results.py:100-110 | every other field of the stored result is returned as stored; a list stored as null comes back as null; a missing user gives empty name and experience |
| Results.GetResultById | app/routers/results.py:89-110 | an unparsable id is 400; 404 exactly when no document has the id; a success is the public view of a document with that id; a 500 comes only from a document with that id whose user is null |
| Results.FindResult | app/routers/results.py:95-97 | the answer is that for the first document with the id (its view, or 500 for a null user), and 404 exactly when none has it |
| Results.SaveRecommendations | app/routers/results.py:34-39 | after the background task the recommendations are set whatever happened, and nothing else changed |
| Results.FallbackCarriesMessage | app/routers/results.py:36 | the fallback text is the fixed prefix, the exception's message and the fixed suffix |
| Results.FallbackInjective | app/routers/results.py:36 | two failures save the same text only when their messages agree |
| Schemas.RegisterAccepted | app/auth/schemas.py:11-23 | a registration body is accepted exactly when the email is valid, the password is 8-100 characters and confirmed, and the name is 2-255 characters |
| Schemas.MismatchOnlyForValidPasswords | app/auth/schemas.py:18-23 | the mismatch error appears exactly when both passwords passed their length checks and differ |
| Schemas.ResetAccepted | app/auth/schemas.py:47-59 | a reset body is accepted exactly when the email is valid, the code is six digits, and the new password is 8-100 characters and confirmed |
| Schemas.GeneratedCodesPass | app/auth/schemas.py:34 | every generated verification code passes the code schema |
| AuthUtils.ClaimsOfToken | app/auth/utils.py:63-72 | the token claims are the caller's claims with `exp` and `type` set and nothing else changed |
| AuthUtils.IssuedClaims | app/auth/utils.py:63-99 | an access token expires after a given non-zero delta, else after ACCESS_TOKEN_EXPIRE_MINUTES, with type "access"; a refresh token expires after the configured days, with type "refresh" |
| AuthUtils.VerifiedTypeMatches | app/auth/utils.py:126-140 | a payload verifies exactly when it decodes, its `sub` is absent or a string, and it carries the expected type; it is then the decoded payload |
| AuthUtils.TokenClaimsPlain | app/auth/utils.py:72 | the helpers set `exp` to a number and `type`, so a token built from data without other library-checked claims has plain claims |
| AuthUtils.SignedTokenVerifies | app/auth/utils.py:115-140 | for data without other library-checked claims, a token the service signed verifies, as its own type, to its claims exactly while unexpired and when the caller's `sub`, if any, is a string |
| AuthUtils.SignedTokenTypeChecked | app/auth/utils.py:133-135 | a signed token is never accepted as a token of another type |
| AuthUtils.TokenTypesDisjoint | app/auth/utils.py:126-140 | a refresh token is never accepted as an access token, and an access token is never accepted as a refresh token |
| AuthUtils.PasswordRoundTrip | app/auth/utils.py:17-49 | hash and verify apply the same pre-hash, so a password verifies against its own (non-empty) hash |
| AuthUtils.VerificationCodeShape | app/auth/utils.py:143-150 | a generated code is six digits with no leading zero and reads back as the number drawn |
| AuthStore.Select | app/auth/router.py:59 | `scalar_one_or_none` gives no row exactly when none matches, the one row when exactly one matches, and an error when two do |
| AuthStore.ServiceDataPlain | app/auth/router.py:247-250 | the access and refresh data login signs carry no `aud`, `nbf`, `iat`, `jti` or `at_hash` claim |
| AuthStore.RegisterKeepsConsistent | app/auth/router.py:88-131 | registration keeps user ids and emails unique |
| AuthStore.RefreshKeepsConsistent | app/auth/router.py:327-339 | refresh keeps token digests unique |
| AuthStore.ResetKeepsConsistent | app/auth/router.py:447-464 | reset keeps the unique indexes |
| AuthStore.AuthDb.GetCurrentUser | app/auth/router.py:35-64 | get_current_user returns what the current-user specification gives, and changes nothing |
| AuthStore.AuthDb.Register | app/auth/router.py:67-159 | register's response and new tables are those of the register specification, and the unique indexes hold |
| AuthStore.AuthDb.VerifyEmail | app/auth/router.py:162-209 | verify_email's response and new tables are those of its specification |
| AuthStore.AuthDb.Login | app/auth/router.py:212-266 | login's response and new tables are those of its specification |
| AuthStore.AuthDb.Refresh | app/auth/router.py:269-344 | refresh_token's response and new tables are those of its specification |
| AuthStore.AuthDb.Logout | app/auth/router.py:469-492 | logout's response and new tables are those of its specification |
| AuthStore.AuthDb.ForgotPassword | app/auth/router.py:357-401 | forgot_password's response and new tables are those of its specification |
| AuthStore.AuthDb.ResetPassword | app/auth/router.py:404-466 | reset_password's response and new tables are those of its specification |
| AuthStore.AuthDb.RevokeAllOf | app/auth/router.py:454-462 | the bulk update revokes every unrevoked record of the user and touches nothing else |
| AuthFacts.UserByEmailFinds | app/auth/router.py:221-224 | when exactly one live user has the email, the query returns that user |
| AuthFacts.LiveUserFoundByEmail | app/auth/router.py:221-224 | with unique emails, a live user is the one the email query returns |
| AuthFacts.LiveUserFoundById | app/auth/router.py:56-59 | with unique ids, a live user is the one the id query returns |
| AuthFacts.AppendedRecordFound | app/auth/router.py:294-303 | a record stored under a fresh digest is the one the digest query returns while it lives |
| AuthFacts.UserByEmailUnique | app/auth/router.py:89-90 | with unique emails the email query never finds two users |
| AuthFacts.HashQueriesUnique | app/auth/router.py:294-303 | with unique digests a digest query never finds two records |
| AuthFacts.RedeemableEarlier | app/auth/router.py:171-181 | a code redeemable later was redeemable earlier: expiry only removes codes |
| AuthFacts.UsedCodeExhausted | app/auth/router.py:171-190 | once the matching code is marked used, no code matches then or later |
| AuthFacts.RegisterOutcome | app/auth/router.py:88-125 | 400 exactly when a live user has the email; success exactly when no user holds the email or the id; a success adds one unverified student and one unused six-digit email-verification code expiring after the configured minutes; a failure changes nothing |
| AuthFacts.RegisteredMustVerify | app/auth/router.py:239-244 | a freshly registered account gets 403 at login until its email is verified, whatever the password |
| AuthFacts.VerifyEmailOutcome | app/auth/router.py:170-197 | a code redeems only as the one unused, undeleted, unexpired email-verification code with that value; redemption marks it used and the owner verified, and changes nothing else |
| AuthFacts.RedeemAtMostOnce | app/auth/router.py:171-190 | a verification code redeems at most once: a second attempt, then or later, gets 400 |
| AuthFacts.LoginOutcome | app/auth/router.py:220-261 | 401 exactly when no live user with the email has a usable hash the password matches; 403 exactly when one does but is unverified; a success returns a bearer pair and stores one record under the refresh token's digest, expiring in 7 days; a failure changes nothing |
| AuthFacts.LoginAccessTokenWorks | app/auth/router.py:246-249 | the access token a login returns identifies the user until its expiry second has passed, and is refused after |
| AuthFacts.LoginRefreshRecordLive | app/auth/router.py:250-258 | the refresh token a login returns has the live record for its digest for seven days |
| AuthFacts.AccessTokenNamesUser | app/auth/router.py:48-64 | an access token issued for a live user names that user until it expires |
| AuthFacts.RefreshTokenNotAccess | app/auth/router.py:48-50 | a refresh token is refused where an access token is required |
| AuthFacts.NumericSubjectRefused | app/auth/utils.py:126-140 | a token whose `sub` is a number is refused by verify_token, as python-jose refuses a non-string subject, so get_current_user answers 401 and refresh answers 401 for an invalid refresh token without changing anything |
| AuthFacts.CurrentUserIsLive | app/auth/router.py:48-64 | get_current_user returns only a live user, the one the token's subject names |
| AuthFacts.RefreshOutcome | app/auth/router.py:277-339 | 401 for a token that is not a valid refresh token or whose digest has no live record; a success revokes that one record, issues a pair for the live user the token names and stores the new record; a failure changes nothing |
| AuthFacts.ConsumedTokenDead | app/auth/router.py:327-328 | after a refresh no record is live under the consumed token's digest |
| AuthFacts.RefreshAtMostOnce | app/auth/router.py:292-309 | a refresh token is exchanged at most once |
| AuthFacts.RefreshRotates | app/auth/router.py:330-338 | the refresh token a refresh returns has the live record for its digest for seven days |
| AuthFacts.AccessTokenCannotRefresh | app/auth/router.py:277-283 | an access token is refused by refresh with 401 and changes nothing |
| AuthFacts.LogoutOutcome | app/auth/router.py:477-492 | logout always answers the same success message; its only change is to revoke the unrevoked record under the token's digest |
| AuthFacts.LogoutIdempotent | app/auth/router.py:479-490 | after logout the digest has no unrevoked record, so logging out again changes nothing |
| AuthFacts.LogoutEndsRefresh | app/auth/router.py:477-490 | a logged-out refresh token can no longer be exchanged |
| AuthFacts.ForgotPasswordOutcome | app/auth/router.py:365-401 | the same answer whether or not the email is registered; a password-reset code is stored exactly when a live user has the email, and nothing else changes |
| AuthFacts.ResetOutcome | app/auth/router.py:412-466 | 400 without a redeemable reset code or when its owner is not the live user with the email; a success marks the code used, replaces the owner's hash and revokes every unrevoked record of the owner and no other; a failure changes nothing |
| AuthFacts.ResetOwnerIsEmailUser | app/auth/router.py:431-445 | the owner of a redeemed reset code is the live user with the email |
| AuthFacts.ResetEndsSessions | app/auth/router.py:453-462 | after a reset none of the user's refresh tokens can be exchanged |
| AuthFacts.ResetNewPasswordWorks | app/auth/router.py:450-451 | after a reset the new password no longer gets 401 at login |
| AuthFacts.ResetCodeOnce | app/auth/router.py:412-429 | a reset code works once: a second reset with it, then or later, gets 400 |
| AuthFacts.ForgotThenReset | app/auth/router.py:377-384 | the code forgot-password stores resets the password while unexpired, when no other unused reset code has its digits |
| AuthFacts.AppendedCodeFound | app/auth/router.py:413-423 | a code stored when no other redeemable code has its value is the one the code query returns |
| AuthFacts.LiveUserIsResetOwner | app/auth/router.py:432-439 | with unique ids, a live user owns their reset codes for their own email |

## Left out

- Floating point. Category weights are exact tenths, and percentages and the weighted mean are exact
  rationals rounded half-to-even. Python computes them in IEEE doubles, which can differ from exact
  arithmetic at a .5 boundary.
- Unicode. `str.lower` is modelled on ASCII letters only and `\d` as ASCII digits. `str.strip` does
  use Python's full `isspace` set.
- Email syntax and its normalisation. `EmailStr` validation is a boolean parameter of the schema
  functions, and the address it normalises (the domain lower-cased) is taken as given, so the user
  lookups compare the address as the handler receives it.
- Side effects outside the tables: SMTP sending, logging, printing, the LLM call that produces
  recommendations (its outcome is a parameter), async scheduling, background tasks, transaction
  isolation, and races between concurrent requests (two submits of one attempt, for instance).
- The library primitives (JWT, bcrypt, SHA-256, base64, UUID and ObjectId parsing). They are function
  values constrained only by `Lawful`.
- Randomness. `uuid4`, `gensalt`, `randint`, `random.random` and `random.choice` are parameters, so their
  distributions (for example the 0.8/0.6/0.3 chance of a right quick-test answer) are not modelled.
- Record ids of refresh-token and code rows are not modelled, and `expires_delta` is a non-negative
  number of microseconds.
- Undeclared settings. REFRESH_TOKEN_EXPIRE_DAYS, VERIFICATION_CODE_EXPIRE_MINUTES and POSTGRES_URL
  are never declared in the settings class, so they are parameters in `Settings`. JWT_ALGORITHM and
  SECRET_KEY are folded into the primitives.
- Claim values other than text and whole numbers. The model writes out python-jose's check that `sub`
  is a string, so a token with a numeric `sub` is refused like any other invalid token; the library's
  other registered-claim checks are left inside `decode`.
- AuthUtils.SignedTokenVerifies (and the law `Lawful` behind it): the law that a token decodes exactly while unexpired is stated
  only for claims with no `aud`, `nbf`, `iat`, `jti` or `at_hash` and a numeric `exp`; python-jose
  checks those claims too (with no audience passed it refuses any `aud`, and it accepts a digit-string
  `exp`), and the model does not say how. For other claims `Lawful` says only that a token decodes,
  if at all, to its own claims. The data the handlers sign meets the premise
  (`AuthStore.ServiceDataPlain`).
- `get_quiz` and `get_quiz_attempt`, which only reshape a stored document into a response. The quiz
  settings other than `max_attempts`, and the questions' other fields, are not modelled.
- An explicit `passing_score: null` in a quiz document, or an explicit `min_score: null` in a
  `level_config` entry, is not distinguished from an absent one. In Python the comparison then raises
  a TypeError (app/routers/quizzes.py:279, 285 and 293), and the request fails with 500. The model uses
  the default 50 or 0 instead.
- An explicit `weights: null` on a stored question is not distinguished from a missing or empty map.
  In Python `q.get('weights', {})` is then None (app/services.py:29): the maximum is still 5, but an
  answered question raises AttributeError at `weights.get` (app/services.py:44), and the request fails
  with 500. The model scores that answer 0 instead.
- In a stored result, the user dict's `name` and `experience` are text; an explicit null for either
  is not modelled. A null user and null list fields are modelled (`Results.Field`).
- The questions collection has no unique index on `id`, so duplicate stored ids are allowed and modelled
  (see Findings).
- The quick-test handler's database insert and its call to the scoring engine. The answer generator it
  uses is modelled. The submit handler's call to the scoring engine is modelled; its write of a result
  document to the document store, which happens on every successful submit, is reduced to the
  `resultId` it records.
- The two-category example of the scoring tests (overall below 30) is not a separate lemma. The
  one-category example and UnaskedCategory state the same policy: unasked categories count as 0 in the
  mean over all nine.
- Quizzes.AttemptTable.Submit: the concurrent double submit is out of scope, as above. `completed_at` and
  `time_spent_seconds` use one `now`, where the source reads the clock twice.
- One clock read per request. Login (app/auth/utils.py:66-68 and 95, app/auth/router.py:257), refresh
  (app/auth/router.py:300, 328 and 335, plus the token helpers), verify-email (app/auth/router.py:178
  and 190) and reset-password (app/auth/router.py:420, 448 and 461) read `datetime.now` several times;
  the model uses one `now` for all of them, so it does not capture the microseconds between the reads
  (for example a code that expires between the lookup and the update).
- AuthStore.AuthDb.Login: when the new refresh token's digest collides with a stored one, which can
  happen for two logins of one user in the same second, the unique index makes the insert fail, and
  the model answers 500.

## Findings

| source | as written | input that shows it | evidently intended | confidence | as-written member | corrected member |
|---|---|---|---|---|---|---|
| app/routers/quizzes.py:274-287 | both loops keep the last `level_config` key whose `min_score` the score reaches, although the comment says they look for the highest level | the configuration the migration writes (Senior first, Junior last with min 0) and any score of 0 or more: the level is always "junior" | the reached level with the greatest `min_score`, which for the migrated configuration is get_level's tier | high; not executed | Quizzes.LevelFromConfigAsWritten, Migrate.MigratedLookupAlwaysJunior, QuizFacts.SubmitOnMigratedConfigRecordsJunior | Quizzes.LevelFromConfig, Quizzes.HighestMatchSpec, Migrate.MigratedHighestMatchIsGetLevel |
| app/routers/quizzes.py:100-107 | missing questions are detected by comparing the number fetched with the number of listed ids | a quiz listing one stored id twice is refused with an empty missing set; a quiz listing ids [x, y] where y is missing and two stored questions have id x succeeds with one question | fail exactly when some listed id has no stored question, naming those ids | medium; not executed | Quizzes.GetQuizQuestionsAsWritten, Quizzes.RepeatedIdRefused, Quizzes.StoredDuplicateHidesMissing | Quizzes.GetQuizQuestions, Quizzes.GetQuizQuestionsSpec |
