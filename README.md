# EcoLearn game and statistics core, in Dafny

This project models the logic of the EcoLearn web app's three games and of
the two pages that summarise and chart data:

- **Virtual tree** (`tree_game.dfy`). A tree has a level and a water count.
  Each watering adds one to the count. Reaching `level * 5` waters raises the
  level by one and empties the count. Loading adopts the user's
  `tree_progress` row, or creates the default row (1, 0). Every watering is
  written through to that row.
- **Trivia quiz** (`trivia_game.dfy`). Up to five fetched questions are asked
  one at a time. An answer scores a point when it equals the correct answer.
  A 2-second callback moves to the next question or ends the quiz. At the end,
  a `quiz_scores` row is appended for a signed-in user. The row's score is the
  one captured when the last answer was clicked, so a correct final answer is
  missing from it. `Advance` states this exactly.
- **Sustainable choices** (`sustainable_choices.dfy`). There are four fixed
  scenarios of three options each. Each option has a signed impact, and the
  impacts add up to the score. The closing card shows a percentage, a tier and
  a rounded score. Nothing is stored.
- **Dashboard** (`dashboard.dfy`). From the user's tree row and quiz rows, the
  dashboard derives:
  - the tree level and the number of quizzes;
  - the rounded average percentage;
  - the badge list, which is built by successive pushes;
  - the badge icons;
  - the next-challenge cards;
  - the greeting name and initials.
- **Climate chart** (`visualization.dfy`). The `reduce` groups the sorted
  `climate_data` rows into one record per date label. Records keep the order
  in which each label first appears. For each data type, a record keeps the
  value of the latest row.

Shared pieces:

- `js.dfy` holds the JavaScript semantics the code relies on: `null` as
  `Option`, truthiness of an optional string, and `Math.round`.
- `store.dfy` holds the two database tables the games write to.
  - `tree_progress` is a map keyed by user.
  - `quiz_scores` is an append-only sequence.

Each React component with state is a class whose fields are its state
variables. Each handler, and each timer callback, is one method that runs as
one atomic step. A `setTimeout` callback closes over the render that scheduled
it. The model records what it captured in a `timeouts` queue, and `Advance`
runs the oldest entry. A ghost history (`answers`, `choices`) ties the score
to the answers given, through the class invariant `Valid()`.

Two behaviours of the code are easy to misread, and the model follows the code:

- The choices percentage is `(score + 4) * 12.5` with no clamp. It ranges
  from -50 to 150, not 0 to 100 (`Percentage`).
- The dashboard average is rounded once, after averaging the unrounded
  per-quiz percentages. It does not round each quiz first.
  `RoundOnceDiffersFromPerRow` exhibits two rows where the two orders give
  different results.

## Model

| member | source | states |
|---|---|---|
| Js.Round | src/components/games/TriviaGame.tsx:108 | `Math.round` returns the integer within half a unit of its argument; a half rounds up |
| Store.RowsOf | src/pages/Dashboard.tsx:59-62 | the `eq("user_id", u)` query returns every row of user `u`, each as many times as the table holds it, and no row of anyone else |
| Store.Database.InsertTreeRow | src/components/games/TreeGame.tsx:44-48 | inserting the default row adds it under the user's key when that key is absent; `quiz_scores` is untouched |
| Store.Database.UpdateTreeRow | src/components/games/TreeGame.tsx:65-83 | the update replaces the user's row with the new water count; the level changes only when the update names it; a user without a row changes nothing |
| Store.Database.InsertQuizScore | src/components/games/TriviaGame.tsx:68-75 | inserting into `quiz_scores` appends exactly one row; `tree_progress` is untouched |
| TreeGame.Water | src/components/games/TreeGame.tsx:53-92 | one watering keeps a well-formed state well-formed; the level never decreases and rises by at most one; it rises exactly when `count + 1 >= level * 5`, and then the count is 0; otherwise the count rises by one |
| TreeGame.WaterWithinLevel | src/components/games/TreeGame.tsx:76-85 | waterings that stay below the threshold only count up, at the same level |
| TreeGame.WaterToNextLevel | src/components/games/TreeGame.tsx:54-75 | from count `w`, the `level * 5 - w` waters still needed end at (level + 1, 0) |
| TreeGame.OneLevelPerThreshold | src/components/games/TreeGame.tsx:19-58 | from (L, 0), every run shorter than `L * 5` waterings stays at level L, and exactly `L * 5` waterings end at (L + 1, 0) |
| TreeGame.TreeEmojiMonotone | src/components/games/TreeGame.tsx:104-109 | the tree emoji never gets smaller as the level grows, and two levels show different emoji exactly when level 2, 5 or 10 lies between them |
| TreeGame.TreeGame.constructor | src/components/games/TreeGame.tsx:13-16 | the card starts at level 1 with no water and loading |
| TreeGame.TreeGame.LoadTreeProgress | src/components/games/TreeGame.tsx:27-51 | an existing row is adopted; with no row, or with the not-exactly-one-row code (PGRST116) while the user has no row, the default row (1, 0) is inserted and the state stays put; any other error changes neither the state nor the table; from the initial state (1, 0), a successful read or the default insert leaves the stored row equal to the state |
| TreeGame.TreeGame.WaterTree | src/components/games/TreeGame.tsx:53-92 | the new state is `Water` of the old one; the toast reports a level-up or a positive number of waters left; the user's row gets the new count (and the new level on a level-up); other users' rows are unchanged; a synced, well-formed state stays synced and well-formed |
| TriviaGame.Loaded | src/components/games/TriviaGame.tsx:25-40 | with at most five questions held and a fetch within `limit(5)`, the quiz holds at most five questions afterwards; a failed query keeps the current questions |
| TriviaGame.CountCorrect | src/components/games/TriviaGame.tsx:42-50 | the score never exceeds the number of answers, and equals it exactly when every answer equals its question's correct answer |
| TriviaGame.LastPoint | src/components/games/TriviaGame.tsx:46-50 | the last answer's point (0 or 1) is the score after it minus the score before it, the gap between the shown and the saved score |
| TriviaGame.VerdictFor | src/components/games/TriviaGame.tsx:111-115 | "Perfect" iff score = total; otherwise "Great job" iff 2·score ≥ total; otherwise "Good try" |
| TriviaGame.ScorePercent | src/components/games/TriviaGame.tsx:107-109 | the shown percentage lies in [0, 100] for a score between 0 and the total; it is 100 for a full score and 0 for none |
| TriviaGame.TriviaGame.constructor | src/components/games/TriviaGame.tsx:12-40 | the quiz starts at question 0 with score 0, no selection and not complete, holding the loaded questions; the invariant holds |
| TriviaGame.TriviaGame.HandleAnswer | src/components/games/TriviaGame.tsx:42-66 | with a truthy answer already selected, nothing changes; otherwise the answer is selected, scored +1 iff it equals the correct answer, and the 2-second callback is queued with the pre-click score; the invariant is kept for non-empty answers |
| TriviaGame.TriviaGame.Advance | src/components/games/TriviaGame.tsx:54-75 | the callback moves to the next question and clears the selection, or else completes the quiz; on completion a signed-in user gets exactly one `trivia` row of `questions.length` questions whose score is the shown score minus the last answer's point; otherwise nothing is written |
| TriviaGame.TriviaGame.ResetGame | src/components/games/TriviaGame.tsx:77-84 | reset returns to question 0, score 0, no selection, not complete, and reloads the questions; pending callbacks stay queued |
| SustainableChoices.Impact | src/components/games/SustainableChoices.tsx:10-43 | every impact in the table lies in [-2, 2]; the first option of every scenario is -2 and the last is +2 |
| SustainableChoices.ToneOfExtremes | src/components/games/SustainableChoices.tsx:147-165 | the feedback for the first option is "Consider This", for the last "Great Choice!", and "Good Try" exactly for a zero impact |
| SustainableChoices.ImpactSum | src/components/games/SustainableChoices.tsx:52-58 | the score after k choices lies in [-2k, 2k] |
| SustainableChoices.ExtremeSums | src/components/games/SustainableChoices.tsx:10-58 | always taking the first option gives -2 per scenario, and always taking the last gives +2 |
| SustainableChoices.Percentage | src/components/games/SustainableChoices.tsx:79-81 | the percentage is `(score + 4) * 12.5`, in [-50, 150] for reachable scores |
| SustainableChoices.TierByScore | src/components/games/SustainableChoices.tsx:92-101 | the tier thresholds on the percentage are score ≥ 3 (Champion), 1..2 (Warrior), 0 (Learner), negative (Keep Learning) |
| SustainableChoices.DisplayedScore | src/components/games/SustainableChoices.tsx:104 | the rounded score equals the percentage when `score + 4` is even, and is half a point above it otherwise |
| SustainableChoices.SustainableChoices.constructor | src/components/games/SustainableChoices.tsx:45-50 | the game starts at scenario 0 with score 0 and nothing selected; the invariant holds |
| SustainableChoices.SustainableChoices.HandleChoice | src/components/games/SustainableChoices.tsx:52-69 | with an option already selected, nothing changes; otherwise the option is selected, its impact added to the score, and the 3-second callback queued; the invariant is kept |
| SustainableChoices.SustainableChoices.Advance | src/components/games/SustainableChoices.tsx:60-68 | the callback moves to the next scenario and clears the selection, or completes the game; on completion the score is the sum of all four impacts and lies in [-8, 8] |
| SustainableChoices.SustainableChoices.ResetGame | src/components/games/SustainableChoices.tsx:71-77 | reset returns to scenario 0, score 0, nothing selected, not complete |
| Dashboard.BadgesEarned | src/pages/Dashboard.tsx:71-79 | a badge is in the list exactly when its threshold holds |
| Dashboard.BadgesAscending | src/pages/Dashboard.tsx:71-79 | the list is in push order, so no badge appears twice |
| Dashboard.CollectBadges | src/pages/Dashboard.tsx:71-79 | the successive pushes build exactly the badge list |
| Dashboard.BadgeImplications | src/pages/Dashboard.tsx:73-79 | Tree Master implies Sapling, Sapling implies Seedling, Knowledge Seeker implies Quiz Starter, and Perfect Score implies Eco Expert |
| Dashboard.SumPercent | src/pages/Dashboard.tsx:68 | the `reduce` over rows with in-range scores gives a sum between 0 and 100 per row |
| Dashboard.AverageScore | src/pages/Dashboard.tsx:66-69 | the average of in-range rows lies in [0, 100], and it is 0 without rows |
| Dashboard.RoundOnceDiffersFromPerRow | src/pages/Dashboard.tsx:67-69 | scores 1/8 and 0/1 average to 6, where rounding each row first would give 7 |
| Dashboard.StatsOf | src/pages/Dashboard.tsx:64-87 | level and water come from the tree row (0 without one); the quiz count is the number of rows (0 without data); the average is `AverageScore` of the rows (0 without any) and lies in [0, 100] for in-range rows; the badges are those of these values |
| Dashboard.NewUserStats | src/pages/Dashboard.tsx:64-79 | a user with no tree row and no quizzes has all-zero stats and no badge |
| Dashboard.ChallengesComplementBadges | src/pages/Dashboard.tsx:241-259 | the level card shows exactly while Sapling is missing; the quiz card exactly while Knowledge Seeker is missing; the score card exactly when Quiz Starter is earned and Eco Expert is not |
| Dashboard.BadgeIconsDistinct | src/pages/Dashboard.tsx:90-101 | the seven badges get seven different icons, none of them the default; every other label gets the default |
| Dashboard.BeforeFirstAt | src/pages/Dashboard.tsx:115 | `split('@')[0]` is a prefix of the address without '@', ending at the first '@' or at the end |
| Dashboard.UserName | src/pages/Dashboard.tsx:115 | the greeting name is never empty: it is the local part of the address when that is non-empty, and "Explorer" otherwise |
| Dashboard.UserInitials | src/pages/Dashboard.tsx:116 | the initials are the name's first two characters (fewer for a shorter name), upper-cased |
| Dashboard.DashboardPage.LoadUserStats | src/pages/Dashboard.tsx:50-87 | the stats are those of the user's tree row and quiz rows; a failed query counts as no data |
| Visualization.DatesSpec | src/pages/Visualization.tsx:49-63 | the date labels are pairwise distinct, and a label is listed exactly when some row carries it |
| Visualization.DatesInFirstOccurrenceOrder | src/pages/Visualization.tsx:49-63 | the labels are listed in the order their first rows appear |
| Visualization.FieldsForSpec | src/pages/Visualization.tsx:53-59 | a record has a field for a data type exactly when some row under its label has that type, and the field holds the value of the latest such row |
| Visualization.FieldsForUnseen | src/pages/Visualization.tsx:56-59 | a label that no row carries has no fields |
| Visualization.GroupedSpec | src/pages/Visualization.tsx:49-63 | the records have distinct labels, every row's label has a record, the records are in first-occurrence order, and each record's fields are those of `FieldsFor` |
| Visualization.GroupedCount | src/pages/Visualization.tsx:49-63 | there are as many records as distinct labels among the rows |
| Visualization.GroupedUpdate | src/pages/Visualization.tsx:53-54 | a row whose label already has a record sets that one field of that record and changes nothing else |
| Visualization.GroupedAppend | src/pages/Visualization.tsx:55-60 | a row with a new label appends one record holding that row's single field |
| Visualization.FindByDate | src/pages/Visualization.tsx:51 | `find` returns the first record with the label, or none if no record has it |
| Visualization.GroupByDate | src/pages/Visualization.tsx:49-63 | the in-place fold yields exactly the grouped records |
| Visualization.VisualizationPage.LoadClimateData | src/pages/Visualization.tsx:42-66 | on success the chart holds the grouped records; on an error or `null` data it keeps its records; it requires that no fetched row has data type `date`, as `GroupByDate` does |

## Left out

- Authentication, sessions and redirects are not modelled. The user id is a parameter of each component.
- Toasts, confetti and icons other than the badge icons are not modelled. Spinners and all rendering are left out as well.
- The `last_watered_at` and `created_at` timestamps are not modelled.
- Timer delays and React's batching are not modelled. Each handler and each timer callback is one atomic step. Clicks racing an awaited query are not modelled.
- Every database write succeeds, because the components never inspect a write's result.
- Floating point is not modelled. Percentages are exact reals, so the NaN that a zero `total_questions` produces in the source is not modelled.
- Dashboard.DashboardPage.LoadUserStats: requires every quiz row of the user to have a positive question count, because of the NaN case.
- Date labels (`toLocaleDateString`) are an abstract function of the timestamp.
- Visualization.GroupByDate: requires that no row's data type is `date`. In the source, such a row would overwrite the record's label.
- Visualization.VisualizationPage.LoadClimateData: requires that no fetched row's data type is `date`, because it folds the rows with `GroupByDate`. The chart plots only `co2_emissions` and `temperature` (Visualization.tsx:116, 146).
- Dashboard.UserInitials: upper-cases ASCII letters only, not Unicode. It counts characters as code points, where JavaScript counts UTF-16 units.
- TriviaGame.TriviaGame.HandleAnswer: keeps the invariant only for non-empty answers. The model follows the handler's own guard (`if (selectedAnswer) return`, TriviaGame.tsx:43), which an empty answer does not trip. It leaves out the option buttons' `disabled={selectedAnswer !== null}` (TriviaGame.tsx:159), which in the page blocks a second click even after an empty answer.
- TriviaGame.TriviaGame.HandleAnswer: requires a current question and an unfinished quiz. Only then does the card render answer buttons.
- TriviaGame.TriviaGame.ResetGame: takes the reload's result as a parameter and applies it in the same step. It requires a completed quiz, because only the completion card offers the button.
- TriviaGame.TriviaGame.constructor: requires the fetch to return at most five rows, which the query's `limit(5)` guarantees.
- TreeGame.TreeGame.LoadTreeProgress: requires a truthy user id, because the effect calls it only then.
- TreeGame.TreeGame.WaterTree: requires that loading is over. Until then the card renders no button.
- Store.Database.InsertTreeRow: an insert for a user who already has a row changes nothing, because `user_id` is the table's key.
- The colour classes of the choices feedback and the tier emoji are presentation. They are not modelled beyond the heading (`ToneOfExtremes`) and the tier (`TierByScore`).
