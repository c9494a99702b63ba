# Adaptive practice core of the fraction tutor, in Dafny

This project models the adaptive-practice core of a fraction tutor and proves
properties of the model. The core covers:

- **Answer validator** (`lib/check.ts`): lower-cases and trims an answer and
  compares it with the answer keys.
- **Problem selector** (`lib/itemBank.ts`): keeps the problems at the requested
  level whose ids were not served recently, and draws one of them.
- **Difficulty adapter** (`lib/adapt.ts`): moves between easy, medium and hard
  using only the answers recorded at the current level.
- **Session metrics** (`lib/metrics.ts`): accuracy, fast rate, average time,
  per-level accuracy, streak, speed score, grade and an improvement flag.
- **End-of-session summary** (`lib/summary.ts`): weak areas by topic, plus
  strengths and improvements.
- **Offline fallbacks** (`lib/offline.ts`): canned feedback, hints and a study plan.
- **Session store** (`store/session.ts`): the state machine that records
  answers, adapts the level, hands out hints and ends the session after ten
  answers.

The modules follow the source files:

| module | file |
|---|---|
| `Types` | the shared records |
| `Text` | `toLowerCase`, `trim`, `includes`, number rendering |
| `Numeric` | `Math.round` of a ratio, `Math.floor(Math.random() * n)` |
| `Check` | `lib/check.ts` |
| `Items`, `Bank` | `lib/itemBank.ts` |
| `Adapt` | `lib/adapt.ts` |
| `Metrics` | `lib/metrics.ts` |
| `Summary` | `lib/summary.ts` |
| `Offline` | `lib/offline.ts` |
| `Session` | `store/session.ts` |

Pure code becomes functions and lemmas. Code that works by loops or step-by-step updates keeps that form:

- `Metrics.CurrentStreak` is the streak loop of `deriveMetrics`.
- `Summary.TallyTopics` and `Summary.WeakAreas` are the `forEach` loops of `weakAreas`.
- `Summary.GenerateInsights` holds the pushes of `generateInsights`.
- `Session.SessionStore` is a class whose methods update the store state in place. Each method is proved against a function on `SessionState` values (`Recorded`, `Submitted`, `HintRequested`, `NextLoaded`, `Cleared`), and the lemmas are stated about those functions.

Every metric is a ratio of integer counts or of a sum of integer times, so it is computed exactly:

- `Math.round(p / q)` is `Numeric.RoundDiv(p, q)`, the nearest integer with halves rounded up.
- A threshold on a percentage is a cross-multiplied integer test. Lemmas link each such test to the real-valued ratio the source compares.

Non-deterministic inputs are parameters of the actions that read them:

- the clock (`Date.now()`);
- the value `Math.random()` returns;
- the freshly generated session id;
- the outcome of the hint service: `Some(hint)` when it answers, `None` when it fails.

## Model

| member | source | states |
|---|---|---|
| Text.Lower | lib/check.ts:23 | `toLowerCase` keeps the length and lower-cases each character on its own (ASCII letters). |
| Text.TrimStart | lib/check.ts:23 | The result is a suffix of the input, does not start with white space, and only white space was dropped. |
| Text.TrimEnd | lib/check.ts:23 | The result is a prefix of the input, does not end with white space, and only white space was dropped. |
| Text.Contains | lib/summary.ts:63-70 | `includes` is true exactly when the substring occurs at some index. |
| Text.NormalizeIgnoresPadding | lib/check.ts:23-24 | White space around a string never changes its lower-cased, trimmed form. |
| Text.LowerIdempotent | lib/summary.ts:61 | Lower-casing twice is lower-casing once. |
| Text.NatToString | lib/summary.ts:42-43 | A whole percentage is printed as a non-empty string of decimal digits with no leading zero. |
| Text.NatToStringRoundTrip | lib/summary.ts:43 | Reading back the printed digits gives the number again. |
| Numeric.RoundDiv | lib/metrics.ts:88-98 | `Math.round(p / q)` is the integer `r` with `r - 1/2 <= p/q < r + 1/2`. |
| Numeric.RoundDivBetween | lib/metrics.ts:88-98 | A ratio between two integers rounds to a value between them. |
| Numeric.PercentInRange | lib/metrics.ts:89-95 | A rounded percentage of `k` out of `n`, with `k <= n`, lies in [0, 100]. |
| Numeric.RandomIndex | lib/itemBank.ts:28 | `Math.floor(Math.random() * n)` is always a valid index below `n`. |
| Numeric.RandomIndexReaches | lib/itemBank.ts:28 | Every index `i < n` is drawn by the random value `i / n`. |
| Types.AtLevel | lib/adapt.ts:15 | Filtering by level keeps exactly the items recorded at that level. |
| Types.Wrong | lib/summary.ts:17 | Filtering the wrong answers keeps exactly the incorrect items. |
| Types.CountCorrect | lib/metrics.ts:34 | The number of correct answers is the length minus the number of wrong ones. |
| Types.AtLevelAppend | lib/adapt.ts:15 | The level filter distributes over concatenation. |
| Types.AtLevelIdempotent | lib/adapt.ts:15 | Filtering by the same level twice is filtering once. |
| Types.WrongAppend | lib/summary.ts:17 | The wrong-answer filter distributes over concatenation. |
| Types.CountCorrectAppend | lib/metrics.ts:34 | Correct answers add up over concatenation. |
| Check.NormalizeAll | lib/check.ts:24 | Each key is mapped to its normal form, in order. |
| Check.NormalizedMember | lib/check.ts:24-32 | The normal form of the answer is among the mapped keys exactly when some key normalises to it. |
| Check.IsCorrect | lib/check.ts:10-37 | An empty answer and an empty key list give false. Otherwise the answer is accepted exactly when some key has the same lower-cased, trimmed form. |
| Check.CheckAnswer | lib/check.ts:43-48 | A single answer is judged by `isCorrect`. A list is judged by its first element, and an empty list is rejected. |
| Check.SameNormalFormSameVerdict | lib/check.ts:23-32 | Two non-empty answers with the same normal form get the same verdict. |
| Check.PaddingIrrelevant | lib/check.ts:23 | Surrounding white space does not change the verdict on a non-empty answer. |
| Check.CaseIrrelevant | lib/check.ts:23 | Answers differing only in letter case get the same verdict. |
| Check.EveryKeyAccepted | lib/check.ts:32 | Every non-empty key is accepted as written. |
| Check.OnlyKeySetMatters | lib/check.ts:23-32 | The verdict depends only on the set of keys: not their order, the type or the choices. |
| Check.BlankAnswerMatchesBlankKey | lib/check.ts:18-32 | A blank answer passes the empty-answer guard and matches a blank key. |
| Items.OfLevel | lib/itemBank.ts:15 | Keeps exactly the problems at the requested level. |
| Items.NotRecent | lib/itemBank.ts:19 | Keeps exactly the problems whose id is not recent. |
| Items.Available | lib/itemBank.ts:15-19 | The candidates are the problems at the level whose id is not recent. |
| Items.PickNext | lib/itemBank.ts:11-39 | A pick has the requested level, a non-recent id and comes from the input. The result is null exactly when no problem qualifies. |
| Items.EveryCandidateReachable | lib/itemBank.ts:28-29 | The random value `i / k` picks candidate `i` of `k`. |
| Items.EveryFreshProblemReachable | lib/itemBank.ts:11-39 | Every problem at the level with a non-recent id is picked for some random value. |
| Items.FindById | lib/itemBank.ts:69-71 | `find` returns the first problem with the id, or nothing exactly when none has it. |
| Items.LevelCountsAddUp | lib/itemBank.ts:62-64 | The three per-level filters partition the problem list. |
| Bank.ItemBank.PickNext | lib/itemBank.ts:55-57 | The bank's `pickNext` is the free `pickNext` over the stored problems. |
| Bank.ItemBank.ProblemsByLevel | lib/itemBank.ts:62-64 | Holds exactly the stored problems at the level. |
| Bank.ItemBank.ProblemById | lib/itemBank.ts:69-71 | The first stored problem with the id, or nothing exactly when no stored problem has it. |
| Bank.ItemBank.TotalCount | lib/itemBank.ts:76-78 | The total count is the length of the stored list. |
| Bank.ItemBank.CountByLevel | lib/itemBank.ts:83-85 | The per-level count is the size of `getProblemsByLevel` and at most the total. |
| Bank.CountsAddUp | lib/itemBank.ts:76-85 | The three per-level counts add up to the total count. |
| Adapt.LastTwo | lib/adapt.ts:23 | `slice(-2)` is the last two items, or all of them when fewer. |
| Adapt.GetNextLevel | lib/adapt.ts:11-77 | With no item at the current level the level stays, and no call moves more than one level. |
| Adapt.LastTwoReadsEnd | lib/adapt.ts:23-30 | "The last two of `slice(-2)` are all correct (or all wrong)" means the last two items exist and are correct (or wrong). |
| Adapt.MediumRule | lib/adapt.ts:45-56 | At medium: hard exactly on two consecutive correct. Easy exactly when not promoted and either two consecutive wrong or three wrong in all. |
| Adapt.HardRule | lib/adapt.ts:58-64 | At hard: never easy. Medium exactly on two consecutive wrong or three wrong in all. |
| Adapt.EasyRule | lib/adapt.ts:66-72 | At easy: never hard. Medium exactly on two consecutive correct. |
| Adapt.NoScopedHistoryStays | lib/adapt.ts:15-20 | With no item recorded at the current level, including an empty history, the level stays. |
| Adapt.FewerThanTwoStays | lib/adapt.ts:23-30 | With fewer than two items at the current level the level stays. |
| Adapt.OnlyScopedHistoryMatters | lib/adapt.ts:15 | The decision over the history equals the decision over its items at the current level. |
| Adapt.OtherLevelEntryIgnored | lib/adapt.ts:15 | Inserting an item recorded at another level anywhere never changes the decision. |
| Adapt.ScopeSkipsOtherEntry | lib/adapt.ts:15 | An item at another level vanishes from the filtered history. |
| Adapt.SameScopeSameDecision | lib/adapt.ts:15-76 | Histories with the same items at the current level get the same decision. |
| Adapt.AllAtLevel | lib/adapt.ts:15 | A history recorded entirely at one level is its own filter. |
| Adapt.PromotionBeatsDemotion | lib/adapt.ts:47-55 | At medium, wrong, wrong, wrong, right, right goes to hard: promotion is checked first. |
| Adapt.ThreeWrongDemoteFromHard | lib/adapt.ts:60 | At hard, three scattered wrong answers demote to medium. |
| Adapt.TwoScatteredWrongKeepHard | lib/adapt.ts:60-64 | At hard, two non-consecutive wrong answers keep hard. |
| Metrics.PercentAtLeast | lib/metrics.ts:35 | The percentage `k/n*100` reaches `t` exactly when `100k >= tn`. |
| Metrics.PercentAbove | lib/summary.ts:118 | The percentage `k/n*100` exceeds `t` exactly when `100k > tn`. |
| Metrics.PercentGreater | lib/metrics.ts:82-85 | One percentage exceeds another exactly when the cross-multiplied counts do. |
| Metrics.CountFast | lib/metrics.ts:39 | The number of fast answers is at most the length. |
| Metrics.CurrentStreak | lib/metrics.ts:57-64 | The backward loop with `break` returns the length of the trailing run of correct answers. |
| Metrics.DeriveMetrics | lib/metrics.ts:17-105 | `deriveMetrics` returns `MetricsOf(history)`, whose properties are the lemmas below. |
| Metrics.StreakIsTrailingRun | lib/metrics.ts:57-64 | The streak is at most the length. Every item in it is correct, and the item before it is wrong. |
| Metrics.EmptyHistoryMetrics | lib/metrics.ts:20-31 | An empty history gives zeros, the grade poor and no improvement verdict. |
| Metrics.LevelAccuracyInRange | lib/metrics.ts:46-54 | Each per-level accuracy lies in [0, 100], with or without attempts at that level. |
| Metrics.SpeedScoreInRange | lib/metrics.ts:67 | The speed score lies in [0, 100]. |
| Metrics.MetricsInRange | lib/metrics.ts:88-101 | Accuracy, fast rate, per-level values and speed score lie in [0, 100]. The streak is at most the length. |
| Metrics.NoTimeNoSpeedScore | lib/metrics.ts:67 | A non-positive total time gives speed score 0. |
| Metrics.GradeThresholds | lib/metrics.ts:70-74 | The grade is excellent, good, ok or poor exactly for an unrounded accuracy of at least 90, in [75, 90), in [60, 75) or below 60. |
| Metrics.GradeUsesUnroundedAccuracy | lib/metrics.ts:70-89 | 179 right out of 200 shows accuracy 90 yet grades good. |
| Metrics.ImprovedComparesHalves | lib/metrics.ts:77-86 | The flag is null exactly below four items. Otherwise it is true exactly when the second half's accuracy is strictly above the first's. |
| Metrics.ImprovementExample | lib/metrics.ts:77-86 | Wrong, wrong, right, right is an improvement. |
| Metrics.NoImprovementExample | lib/metrics.ts:77-86 | Equal halves are not an improvement. |
| Metrics.StreakExample | lib/metrics.ts:57-64 | The streak of right, right, wrong, right is 1. |
| Metrics.MetricsCalculator.PerformanceLevel | lib/metrics.ts:111-115 | Excellent, good and needs-work exactly for at least 90, [75, 90) and below 75. |
| Metrics.MetricsCalculator.SpeedLevel | lib/metrics.ts:117-121 | Fast, moderate and slow exactly for at least 70, [40, 70) and below 40. |
| Metrics.CalculatorMonotone | lib/metrics.ts:111-121 | A higher input never gets a lower performance level or speed level. |
| Summary.TopicOfId | lib/summary.ts:59-73 | The topic is one of the nine names. The first rule whose key words occur in the lower-cased id decides it, with "General Fractions" when none does (`TopicOfIdFirstMatch`, `TopicOfIdDefault`). |
| Summary.TopicOfIdFirstMatch | lib/summary.ts:59-72 | A rule's topic is returned only when one of that rule's two key words occurs in the lower-cased id and no earlier rule's key word does. |
| Summary.TopicOfIdDefault | lib/summary.ts:59-73 | "General Fractions" is returned exactly when none of the eight rules' key words occurs in the lower-cased id. |
| Summary.TopicIgnoresCase | lib/summary.ts:61 | The topic of an id does not depend on letter case. |
| Summary.AdditionTakesPrecedence | lib/summary.ts:63 | An id mentioning "add" or "plus" is addition, whatever else it mentions. |
| Summary.DivideImpliesDiv | lib/summary.ts:66 | The "divide" test of the division rule never decides, since "divide" contains "div". |
| Summary.TopicsOf | lib/summary.ts:28-32 | One topic per wrong answer, in order. |
| Summary.Distinct | lib/summary.ts:31-35 | The keys of the tally object: each topic once, and nothing else. |
| Summary.Occurrences | lib/summary.ts:31 | A topic's count is positive exactly when the topic occurs. |
| Summary.TallyCounts | lib/summary.ts:28-35 | The entries hold one pair per distinct topic, in first-occurrence order, each with its exact count. |
| Summary.TallyTopics | lib/summary.ts:28-35 | The `forEach` over the wrong answers builds exactly that tally. |
| Summary.CountNext | lib/summary.ts:31 | One step of the `forEach` keeps the keys and counts in step with the topics seen. |
| Summary.CountedEntries | lib/summary.ts:35 | Once all topics are counted, `Object.entries` is the tally. |
| Summary.SortByCountSorts | lib/summary.ts:36 | The sort is descending by count and a permutation of its input. It is stable: entries of equal count keep their order. |
| Summary.InsertIsStable | lib/summary.ts:36 | Inserting by count keeps the order within every count. |
| Summary.InsertIsPermutation | lib/summary.ts:36 | Inserting by count loses and adds nothing. |
| Summary.InsertKeepsDescending | lib/summary.ts:36 | Inserting into a descending list keeps it descending. |
| Summary.TopThree | lib/summary.ts:37 | `slice(0, 3)` is the first three entries, or all when fewer. |
| Summary.Percentage | lib/summary.ts:42 | The rounded share of errors of a topic is at most 100. |
| Summary.AreaLines | lib/summary.ts:41-44 | One line per shown topic, in order. |
| Summary.WeakAreas | lib/summary.ts:9-54 | An empty history gives the no-data message, and a history without wrong answers the no-weak-areas message. Otherwise the result is the topic lines of the top three topics, padded with two generic lines when fewer than two. |
| Summary.WeakAreaLinesShape | lib/summary.ts:35-50 | With a wrong answer there are 2 or 3 lines. The topic lines come first, and a single topic is followed by the two generic lines. |
| Summary.TopTopicsCounted | lib/summary.ts:28-37 | Each shown topic is a topic of a wrong answer with its true count. Shown topics are distinct and most frequent first. |
| Summary.TopTopicsAreMostFrequent | lib/summary.ts:35-37 | A topic not shown has no more errors than any topic shown. |
| Summary.StrengthsOfMeaning | lib/summary.ts:101-109 | Each strength is listed exactly when its test holds, and the generic one exactly when none does. There are 1 to 3, never repeated. |
| Summary.ImprovementsOfMeaning | lib/summary.ts:111-128 | The same for the improvements, never including the start-practising message. |
| Summary.GenerateInsights | lib/summary.ts:78-132 | An empty history gives no strength and only the start-practising message. Otherwise the pushes build the strengths and improvements of the six threshold tests. |
| Summary.InsightsMeaning | lib/summary.ts:91-128 | Each message appears exactly when its real-valued threshold is met, and the generic ones exactly when no other is. Both lists are non-empty. High accuracy never appears with focus-on-accuracy, nor fast with slow, nor few-hints with many-hints. |
| Summary.InsightThresholds | lib/summary.ts:92-95 | Each integer test equals the exact (real-valued) comparison of accuracy, average time or hint rate against its threshold. |
| Offline.ExtractTopic | lib/offline.ts:88-111 | The first topic, in the order addition, subtraction, multiplication, division, simplification, comparison, whose key words or signs occur in the lower-cased stem. No earlier topic occurs, and `'default'` means none occurs. Further behaviour: `ExtractTopicIgnoresCase`, `PlusSignMeansAddition`, `MinusSignMeansSubtraction`, `EveryStemTopicHasHint`. |
| Offline.ExtractTopicIgnoresCase | lib/offline.ts:88-89 | The topic of a stem does not depend on letter case. |
| Offline.SignSurvivesLower | lib/offline.ts:89 | An operator sign occurs in a stem exactly when it occurs in the lower-cased stem. |
| Offline.PlusSignMeansAddition | lib/offline.ts:91-93 | A stem with `+` is addition, even with subtraction words in it. |
| Offline.MinusSignMeansSubtraction | lib/offline.ts:94-96 | A stem with `-` and no addition marker is subtraction. |
| Offline.WrongAnswerFeedback | lib/offline.ts:29-44 | Every wrong-answer message begins "Not quite right.". |
| Offline.GetFallbackFeedback | lib/offline.ts:8-46 | A correct answer gets one of the five positive messages, whatever the stem (`CorrectFeedbackIgnoresStem`). A wrong one gets the message of the stem's topic, beginning "Not quite right.". |
| Offline.CorrectFeedbackIgnoresStem | lib/offline.ts:16-24 | For any random value, the message for a correct answer is the same whatever the stem. |
| Offline.FeedbackIgnoresAnswer | lib/offline.ts:8-46 | Neither the answer nor the keys influence the feedback. |
| Offline.EveryPositiveMessageReachable | lib/offline.ts:24 | Every positive message is served for some random value, whatever the stem. |
| Offline.GetFallbackHint | lib/offline.ts:69-83 | A known topic gets its own hint, and any other the default hint. |
| Offline.EveryStemTopicHasHint | lib/offline.ts:72-82 | Every topic `extractTopic` can return has a hint of its own. |
| Offline.GetFallbackStudyPlan | lib/offline.ts:51-64 | Exactly five plan steps and the fixed challenge. |
| Offline.OfflineSupport.GetFeedback | lib/offline.ts:117-119 | Returns what `getFallbackFeedback` returns. |
| Offline.OfflineSupport.GetStudyPlan | lib/offline.ts:121-123 | Returns what `getFallbackStudyPlan` returns. |
| Offline.OfflineSupport.GetHint | lib/offline.ts:125-127 | Returns what `getFallbackHint` returns. |
| Session.IdsAt | store/session.ts:87 | The id list of a history has one id per item, in order. |
| Session.LastFiveAbsorbs | store/session.ts:87 | Trimming to five after every append is trimming everything appended to five. |
| Session.RecentIdsAreLastIds | store/session.ts:87 | The recency list holds the ids of the last `min(5, n)` items, in order. |
| Session.RecentIdsAppend | store/session.ts:84-96 | Recording an item moves the recency list as `record` does, with the new id last. |
| Session.Cleared | store/session.ts:126-142 | The cleared state is consistent, with empty history, medium level and not complete. |
| Session.RecordKeepsConsistent | store/session.ts:84-96 | `record` keeps the store consistent (recency list = ids of the last five answers) and puts the new id last. |
| Session.SubmitRecords | store/session.ts:187-238 | A refused submit changes nothing. An accepted one appends exactly one item: problem id, level before adaptation, verdict of `isCorrect`, elapsed time, hint use. It also sets the matching feedback and stops the timer. At ten answers the session completes with the level kept; otherwise the level is `getNextLevel` over the new history. The recency list moves as `record` moves it, and no other field changes. |
| Session.SubmitKeepsConsistent | store/session.ts:187-238 | A submit keeps the store consistent. |
| Session.SecondSubmitRefused | store/session.ts:190-193 | After an accepted submit, a second submit on the same problem is refused and changes nothing. |
| Session.SubmitMovesLevelAtMostOneStep | store/session.ts:224-236 | A submit moves the level by at most one step. |
| Session.HintRequestEffect | store/session.ts:251-300 | A refused request changes nothing. Otherwise the stage goes 0 to 1, or 1 to 2 only when a hint arrives (and that hint is appended). A failure at 1 changes nothing. The loading flag stays raised exactly when the stage was 2 or more. No other field changes. |
| Session.HintLockPersists | store/session.ts:260-295 | A request at stage 2 leaves the loading flag raised through the next load, so later requests are refused. |
| Session.HintKeepsConsistent | store/session.ts:251-300 | A request keeps the store consistent and raises the stage by at most one. |
| Session.HintStageBounded | store/session.ts:251-300 | Any run of requests keeps the stage at most 2 and at most one generated hint. |
| Session.NextLoaded | store/session.ts:156-185 | At ten answers the session completes and nothing else changes. Otherwise, when `pickNext` finds nothing, the state is unchanged. When it finds a problem, that problem (at the current level, with a non-recent id, from the problem list) is shown with its hints, a clean hint and feedback slate and a started timer, and no other field changes. |
| Session.LoadKeepsConsistent | store/session.ts:156-185 | Loading keeps the store consistent. |
| Session.LoadedProblemNotRecent | store/session.ts:166 | Whenever `pickNext` finds a problem, the loaded problem is none of the last five answered, even when it is the problem already on screen. |
| Session.LoadReplacesActiveProblem | store/session.ts:156-185 | Loading does not refuse over an active problem: it replaces it, restarts the timer and records nothing. |
| Session.SessionStore.constructor | store/session.ts:50-65 | The initial state is the cleared state with no problems. |
| Session.SessionStore.SetProblems | store/session.ts:67-73 | Replaces the problem list only. |
| Session.SessionStore.StartNewProblem | store/session.ts:75-82 | Starts the timer at `now` and sets the given level, or keeps the current one. |
| Session.SessionStore.Record | store/session.ts:84-96 | The new state is `Recorded` of the old one, and the store stays consistent. |
| Session.SessionStore.SetLevel | store/session.ts:98-101 | Replaces the level only. |
| Session.SessionStore.SetJudgeMode | store/session.ts:103-106 | Replaces the judge flag only. |
| Session.SessionStore.HydrateFromStorage | store/session.ts:108-111 | Changes nothing. |
| Session.SessionStore.ClearSession | store/session.ts:113-153 | The new state is the cleared state with the old problem list and the new id. |
| Session.SessionStore.ResetSession | store/session.ts:307-310 | The same as `clearSession`. |
| Session.SessionStore.LoadNextProblem | store/session.ts:156-185 | The new state is `NextLoaded` of the old one, and the store stays consistent. |
| Session.SessionStore.SubmitAnswer | store/session.ts:187-249 | The new state is `Submitted` of the old one, and the store stays consistent. |
| Session.SessionStore.RequestHint | store/session.ts:251-300 | The new state is `HintRequested` of the old one, and the store stays consistent. |
| Session.SessionStore.GetPerformanceMetrics | store/session.ts:302-305 | Returns the metrics of the recorded history. |

## Left out

- Logging: every `console.log` and `console.error` call is left out.
- The zustand plumbing: the store is one `SessionState` record, and `set` replaces fields of it.
- Intermediate states of `submitAnswer` and `requestHint`: `isSubmitting` and `isLoadingHint` are raised and then lowered within one action. Each action is modelled as one atomic step, so these intermediate values are not observable.
- The 1 s delay inside `submitAnswer`: concurrent actions during the delay, and the stale `state` read after it, are not modelled.
- The 2 s timer that calls `loadNextProblem` after a submit is left out; the caller makes that call explicitly.
- The `try`/`catch` of `submitAnswer`: nothing in the modelled body throws, so the catch path is not modelled.
- The `fetch` in `requestHint` becomes the `outcome` parameter. A JSON body without a `hint` field, which the source would append as `undefined`, is not modelled.
- `generateSessionId` is left out: the new id is a parameter.
- `Date.now()` and `Math.random()` become parameters. The random value is a real in [0, 1).
- `nextProblem.hints || []` is not modelled, because `hints` is always a list in the model.
- Text.Lower: lower-cases ASCII letters only; full Unicode case mapping is not modelled.
- IEEE floating point: ratios are computed exactly. A result that differs from exact arithmetic by a rounding error in the last bit is not modelled.
- Offline.GetFallbackHint: models the lookup as a map with seven keys. A topic naming an inherited object property, such as `"constructor"`, would return that property in JavaScript; this is not modelled.
- Clock skew: a negative elapsed time is kept as it is and averaged like any other.
- The `Problem` record is not validated: a missing `answer_key`, which the source guards against, cannot occur in the model.
