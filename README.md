# Typo typing-practice core, modelled in Dafny

Typo is a touch-typing trainer. The user picks a set of practice keys. The
application draws words made only of those letters and follows every key
press. A press can be a correct letter, a wrong letter, a Backspace, a space
between words, or the space that ends the session. Finished sessions,
per-key performance, daily goals, achievements and experience points are kept
in PocketBase collections through small service modules.

This project models that core and proves properties of it:

- `common.dfy` (`Common`): shared pieces. It holds the `{ success, data }` /
  `{ success: false, error }` result objects (`Outcome`) and JavaScript's
  `Math.round` on a quotient of integers. It also has the first-occurrence
  order in which a JavaScript object lists its keys, ASCII lower-casing, and
  the decimal rendering of a number inside a template string.
- `typing_state.dfy` (`TypingState`): the state the key handler works on. It
  covers the attempt record of one slot (`Letter`) and the cursor. It also
  has the global letter index, which flattens a cursor into a slot number,
  both as the loop of `calculateGlobalLetterIndex` and as its closed form.
- `key_handler.dfy` (`KeyHandler`): `handleKeyDown` as one transition `Step`
  on that state, with one function per key class. It also covers
  practice-key selection (`toggleKey`, `toggleAllKeys`) and the word filter
  over the selected letters.
- `session_engine.dfy` (`SessionEngine`): the same state as a class whose
  fields the key-down handler and the refresh button update in place. Each
  method is proved to perform exactly the transition that `Step` or
  `RefreshState` specifies.
- `typing_area.dfy` (`TypingArea`): the typing-area component. It covers the
  refresh button, with its reset and the daily-goal increment capped at the
  goal. It also covers the end-of-session aggregation: the session summary,
  the per-key tally and the per-key updates. Last, it has the colour of each
  letter and word separator.
- `typing_sessions.dfy`, `key_performance.dfy`, `daily_goals.dfy`,
  `achievements.dfy` and `experience.dfy`: one module per service. Each
  collection is a `seq` or `map` field of a store class. The signed-in user
  is a parameter `auth: Option<UserId>`. The page of records a server query
  returns is a parameter too: it is already filtered and sorted, and the
  model takes its first page.
- `achievements_view.dfy` (`AchievementsView`): the achievements panel groups
  the achievements by type and gives each group a heading and an icon.

Times are milliseconds and dates are day numbers, both passed in as
parameters. A value that JavaScript would compute as `NaN` or `Infinity` (a
division by zero) is `None` where the model computes it.

Backspace inside a word only steps back one letter and drops that letter's
record; it never crosses a separator. So over "cat dog", the presses "c",
"a", "t", space, "d" and Backspace leave the cursor at the start of "dog"
with the separator record kept (`KeyHandler.CatDogBackspace`).

## Model

| member | source | states |
|---|---|---|
| TypingState.Initial | src/App.jsx:18-38 | the state before the first press is valid and its cursor is at slot 0 |
| TypingState.CalculateGlobalLetterIndex | src/App.jsx:108-114 | the loop returns the number of slots of the earlier words, each followed by its separator, plus the letter index |
| TypingState.GlobalIndexOrder | src/components/TypingAreaComponent.jsx:30-36 | the global index follows reading order: an earlier word, or the same word further left, gets a strictly smaller slot, so distinct positions never share a slot |
| TypingState.SeparatorSlot | src/App.jsx:108-114 | the slot after the end of a word is its separator, and the next word starts one slot later |
| KeyHandler.Put | src/App.jsx:259-275 | writing at a slot overwrites it, or appends when the slot is the length; every other slot is unchanged |
| KeyHandler.RemoveAt | src/App.jsx:226 | dropping a slot keeps the earlier slots and shifts every later slot down by one |
| KeyHandler.PriorAttempts | src/App.jsx:263-269 | a new record inherits the old record's earlier attempts plus its character exactly when the old record was incorrect, and nothing otherwise |
| KeyHandler.StartClock | src/App.jsx:117 | the first press, modifiers included, sets the start time; later presses leave it alone |
| KeyHandler.Step | src/App.jsx:116-298 | a press keeps the state valid; a Shift, Control or Alt press (any letter case) changes nothing but the clock; any other press adds exactly one keystroke unless it ends the session, which zeroes the count; the daily goal never changes |
| KeyHandler.SpaceKey | src/App.jsx:140-213 | inside a word only the keystroke count moves; at the end of a word that is not the last, one separator record is appended and the cursor moves to the next word's first slot; at the end of the last word the session ends and everything restarts on the new words |
| KeyHandler.FinalWpm | src/App.jsx:147-150 | the final speed is (keystrokes / 5) per elapsed minute, rounded half up, and is not negative |
| KeyHandler.Complete | src/App.jsx:142-207 | session end resets cursor, records, clock and counters and installs the new words; when time has passed, the last speed is the final speed from the count before the last space, and the top speed becomes the larger of old top and last speed; otherwise both stay |
| KeyHandler.BackspaceKey | src/App.jsx:215-249 | inside a word it steps back one letter and drops the record before the cursor; at a word start it steps back to the end of the previous word and drops the record at the separator slot only if that record is a separator; at the very start nothing changes; counters never change |
| KeyHandler.PrintableKey | src/App.jsx:250-297 | a match stores a correct record with the expected letter and advances one letter; a mismatch, including any key at a word's end, stores an incorrect record with the typed key, stays put and adds one error; no other slot changes |
| KeyHandler.TypeExpected | src/App.jsx:250-283 | the expected letter typed at the end of the records appends a correct record with no earlier attempts, advances one letter and counts one keystroke, and nothing else changes but the clock |
| KeyHandler.TypeWrong | src/App.jsx:284-297 | a wrong one-character key at the end of the records appends an incorrect record holding that key, keeps the cursor and counts one keystroke and one error |
| KeyHandler.RetypeExpected | src/App.jsx:250-283 | the expected letter typed over an incorrect last record replaces it with a correct one whose earlier attempts gain the old character, and advances one letter |
| KeyHandler.SpaceAtWordEnd | src/App.jsx:140-213 | a space at the end of a word that is not the last appends one separator record and moves to the next word's first letter |
| KeyHandler.BackspaceInWord | src/App.jsx:216-228 | Backspace inside a word with no record after the cursor drops the last record and steps back one letter |
| KeyHandler.BackspaceOverSeparator | src/App.jsx:229-247 | Backspace at the start of a word, with the separator as the last record, drops it and moves to the end of the previous word |
| KeyHandler.BackspaceUndoesMatch | src/App.jsx:216-276 | typing the expected letter and then Backspace, with no record at or after the cursor, restores the cursor and the records |
| KeyHandler.SpaceThenBackspaceRestores | src/App.jsx:208-249 | a space at a word boundary and then Backspace, with no record at or after the cursor, restores the cursor and the records |
| KeyHandler.StraySeparatorAfterWrongKeyAtWordEnd | src/App.jsx:208-249 | after a wrong key at a word's end, the space appends the separator one slot past the separator slot, and a following Backspace moves back without removing it |
| KeyHandler.KeystrokesNeverDecreaseWithinSession | src/App.jsx:122-125 | within a session each press adds zero or one keystroke |
| KeyHandler.RetypeKeepsEarlierAttempt | src/App.jsx:250-297 | over "cat", the presses c, x, a leave the slot of "a" correct with earlier attempt "x", two letters typed, three keystrokes and one error |
| KeyHandler.CatDogBackspace | src/App.jsx:140-249 | over "cat dog", the presses c, a, t, space, d, Backspace leave the cursor at the start of "dog" with the records c, a, t and the separator |
| KeyHandler.Without | src/App.jsx:96 | filtering a key out removes every copy of it and keeps every other key |
| KeyHandler.ToggleKey | src/App.jsx:93-101 | an absent key is appended; a present key is removed unless it is the only one, which then stays |
| KeyHandler.ToggleKeyKeepsSelection | src/App.jsx:93-101 | a selection without duplicates stays without duplicates and never becomes empty; removing a present key shrinks it by exactly one |
| KeyHandler.ToggleAllKeys | src/App.jsx:84-91 | with all 26 letters selected the selection returns to the default keys e, n, i, a, r, l (in that order), otherwise it becomes the whole alphabet; both are non-empty and without duplicates |
| KeyHandler.FilterWords | src/App.jsx:76-78 | the practice words are exactly the dictionary words spelled only with selected keys, each as often as in the dictionary |
| SessionEngine.TypingSession.constructor | src/App.jsx:18-38 | the fields start as the initial state, which is valid |
| SessionEngine.TypingSession.KeyDown | src/App.jsx:116-298 | the fields after a press are exactly `Step` of the fields before, and stay valid |
| SessionEngine.TypingSession.SpaceDown | src/App.jsx:140-213 | the space branch performs exactly `SpaceKey`, reading the start time and keystroke count captured before the press |
| SessionEngine.TypingSession.FinishSession | src/App.jsx:142-207 | at the end of the last word, the fields become exactly `Complete` of the state before: speeds settled from the captured start time and keystroke count, then everything restarts on the new words |
| SessionEngine.TypingSession.BackspaceDown | src/App.jsx:215-249 | the Backspace branch performs exactly `BackspaceKey` |
| SessionEngine.TypingSession.BackspaceInWord | src/App.jsx:216-228 | Backspace inside a word performs exactly `BackspaceKey` |
| SessionEngine.TypingSession.BackspaceAtWordStart | src/App.jsx:229-247 | Backspace at the start of a later word performs exactly `BackspaceKey` |
| SessionEngine.TypingSession.PrintableDown | src/App.jsx:250-297 | the branch for other keys performs exactly `PrintableKey` |
| SessionEngine.TypingSession.Refresh | src/components/TypingAreaComponent.jsx:85-110 | the refresh button performs exactly `RefreshState`, and the state stays valid |
| TypingArea.MinutesSpent | src/components/TypingAreaComponent.jsx:98 | the rounded minutes of a non-negative duration are not negative |
| TypingArea.CapGoal | src/components/TypingAreaComponent.jsx:99-102 | the goal's minutes become the old minutes plus the new ones, capped at the total; the total stays and the minutes never exceed it or decrease |
| TypingArea.RefreshState | src/components/TypingAreaComponent.jsx:85-110 | refresh restarts on the new words with no records, no clock and zero counters; the daily goal takes the session's rounded minutes, capped, only when a session was running |
| TypingArea.Errors | src/components/TypingAreaComponent.jsx:51 | the incorrect records are never more than the records |
| TypingArea.TallyOfIsTally | src/components/TypingAreaComponent.jsx:57-67 | the walk over the records gives one entry per final character, holding that character's correct and incorrect counts |
| TypingArea.TallyKeys | src/components/TypingAreaComponent.jsx:57-67 | the in-place loop builds exactly that tally, with keys in first-occurrence order |
| TypingArea.TallyCountsRecords | src/components/TypingAreaComponent.jsx:57-67 | a character's correct plus incorrect count is the number of records that finally hold it |
| TypingArea.TallyIgnoresPreviousAttempts | src/components/TypingAreaComponent.jsx:62-66 | earlier attempts are never counted: records that agree on final character and correctness give the same tally |
| TypingArea.TallyAccountsForEveryRecord | src/components/TypingAreaComponent.jsx:57-67 | the per-key totals over all keys add up to the number of records |
| TypingArea.JoinKeys | src/components/TypingAreaComponent.jsx:52 | the selected keys joined by ", " are empty for no keys and otherwise of length 3n - 2 |
| TypingArea.JoinKeysAt | src/components/TypingAreaComponent.jsx:52 | the joined string holds the keys in order, the i-th at position 3i, with ", " just before every key after the first |
| TypingArea.SessionAccuracy | src/components/TypingAreaComponent.jsx:42 | accuracy is undefined exactly when nothing was typed; otherwise it lies in [0, 100], is 100 with no error and 0 when every record is wrong |
| TypingArea.Score | src/components/TypingAreaComponent.jsx:43 | the score is between 0 and the speed for a non-negative speed and an accuracy in [0, 100] |
| TypingArea.SessionWpm | src/components/TypingAreaComponent.jsx:40-41 | the speed is undefined exactly when no time passed; for a positive duration it is the rounded words per minute and is not negative |
| TypingArea.SessionScore | src/components/TypingAreaComponent.jsx:43 | the score is defined exactly when speed and accuracy are, and is then at most the speed |
| TypingArea.FinishSummary | src/components/TypingAreaComponent.jsx:39-53 | the saved session has the records as keystrokes, the incorrect records as errors (never more), the duration in rounded seconds, and the speed, accuracy, score and key list above |
| TypingArea.KeyAccuracy | src/components/TypingAreaComponent.jsx:71 | per-key accuracy lies in [0, 100]; it is 100 without misses and 0 without hits |
| TypingArea.KeyDeltas | src/components/TypingAreaComponent.jsx:69-78 | one update per key, in key order, with the key's accuracy, the session speed and the key's miss count |
| TypingArea.HandleSessionFinish | src/components/TypingAreaComponent.jsx:38-79 | the session record is the summary; there is one key update per distinct final character, in first-occurrence order, whose accuracy is the rounded percentage of that character's correct records among its records, whose error count is its incorrect records and whose hits plus misses are its records |
| TypingArea.LetterDisplay | src/components/TypingAreaComponent.jsx:140-181 | the cursor's letter is highlighted; a letter is gray exactly when it has no record; green only for a correct record with no earlier attempts; red only for a wrong record or one with earlier attempts |
| TypingArea.TypedLettersAreColoured | src/components/TypingAreaComponent.jsx:156-178 | every letter before the cursor is green or red |
| TypingArea.SeparatorDisplay | src/components/TypingAreaComponent.jsx:184-190 | a dot is highlighted exactly when the cursor waits at the end of its word, and otherwise green exactly when its slot holds a record |
| TypingArea.PassedSeparatorsAreGreen | src/components/TypingAreaComponent.jsx:184-190 | the dot after every word the cursor has passed is green |
| TypingSessions.UserSessions | src/services/typingSessionService.js:38-41 | a user's listing holds only that user's sessions |
| TypingSessions.SessionStore.SaveTypingSession | src/services/typingSessionService.js:4-26 | without a signed-in user nothing is stored; otherwise the data is stored with the user and today's date and returned |
| TypingSessions.SavedSessionIsListed | src/services/typingSessionService.js:12-18 | a saved session appears at the end of its user's listing and in no other user's |
| TypingSessions.FirstPage | src/services/typingSessionService.js:63-67 | the page is the first n records of the listing, or all of them when fewer |
| TypingSessions.AverageMetrics | src/services/typingSessionService.js:53-93 | without a user it fails; with no session all averages are 0; otherwise each average is the rounded mean over the first ten sessions and the total is the listing's size |
| TypingSessions.AverageWithinRange | src/services/typingSessionService.js:74-83 | each average lies within any bounds that hold for the averaged sessions |
| TypingSessions.OnDateCount | src/services/typingSessionService.js:124-136 | a date's sessions are as many as the listing's sessions on that date |
| TypingSessions.TotalsOfDays | src/services/typingSessionService.js:124-136 | the grouping has an entry for exactly the dates that occur, holding that date's session count and wpm and accuracy totals |
| TypingSessions.DayOf | src/services/typingSessionService.js:139-146 | a day's entry counts its sessions (at least one) and holds the rounded mean wpm and accuracy of that day |
| TypingSessions.Progress | src/services/typingSessionService.js:139-147 | the progress has one entry per distinct date, in first-occurrence order |
| TypingSessions.GetUserProgress | src/services/typingSessionService.js:96-156 | without a user it fails; otherwise it returns the progress of the first hundred sessions |
| TypingSessions.GroupByDate | src/services/typingSessionService.js:122-136 | the in-place loop builds exactly the per-date totals, with dates in first-occurrence order |
| TypingSessions.DailyAverages | src/services/typingSessionService.js:139-147 | the mapping loop yields one entry per date, in key order, each built from that date's totals |
| TypingSessions.EntriesAreProgress | src/services/typingSessionService.js:124-147 | every date in key order has totals of at least one session, and mapping those dates to their entries gives the progress |
| TypingSessions.ProgressDatesOnce | src/services/typingSessionService.js:122-147 | every session date appears in the progress, and no date appears twice |
| TypingSessions.ProgressCountsEverySession | src/services/typingSessionService.js:124-146 | the entries' session counts add up to the number of sessions |
| TypingSessions.DayAveragesWithinRange | src/services/typingSessionService.js:139-146 | a day's averages lie within any bounds that hold for that day's sessions |
| TypingSessions.ProgressAscending | src/services/typingSessionService.js:118-139 | for a listing sorted by date, the progress dates strictly increase |
| KeyPerformance.FirstMatch | src/services/keyPerformanceService.js:15-17 | the lookup finds the first record of the user and key, or reports that there is none |
| KeyPerformance.Mean2 | src/services/keyPerformanceService.js:26-27 | the rounded mean of old and new lies between the two and equals them when they agree |
| KeyPerformance.Merge | src/services/keyPerformanceService.js:21-34 | an update keeps user and key, sets today's date, moves accuracy and speed to the rounded means, and adds the error counts, which therefore never decrease for a non-negative input |
| KeyPerformance.Upserted | src/services/keyPerformanceService.js:21-51 | with a record for the key, the first such record becomes its merge with the session's figures and every other record stays; otherwise the collection grows by one |
| KeyPerformance.MergedRecordTakesMeans | src/services/keyPerformanceService.js:21-37 | an existing record keeps its user and key, its accuracy and speed move to between the old and the session's value, its error count adds the session's errors, it is stamped with today, and no other record changes |
| KeyPerformance.UpsertKeepsOneRecordPerKey | src/services/keyPerformanceService.js:21-51 | after an update the user has a record for the key, no key has two records if none had before, and other users' and keys' records are unchanged |
| KeyPerformance.CreatedRecordTakesInput | src/services/keyPerformanceService.js:38-49 | a new record takes the session's accuracy, speed and error count as they are |
| KeyPerformance.KeyPerformanceStore.UpdateKeyPerformance | src/services/keyPerformanceService.js:4-58 | without a user nothing changes; otherwise the collection becomes the upserted one and the returned record is the one just merged (the first record of the key merged with the data) or created (from the data), now stored |
| KeyPerformance.KeyClause | src/services/keyPerformanceService.js:95 | a key's clause is `key="`, then the key, then a closing quote |
| KeyPerformance.KeyFilters | src/services/keyPerformanceService.js:95 | the joined clauses are empty exactly for no keys, and otherwise as long as the keys together plus ten characters per key, less four |
| KeyPerformance.KeyFiltersRoundTrip | src/services/keyPerformanceService.js:95 | for keys without a double quote, reading the keys back out of the joined clauses gives exactly the requested keys, in order |
| KeyPerformance.KeysPerformanceQuery | src/services/keyPerformanceService.js:85-110 | without a user it fails; otherwise the query restricts to the user, its parenthesised part is the joined clauses, which name exactly the keys when no key holds a double quote, the page is as large as the key list, and it sorts by key |
| DailyGoals.FindGoal | src/services/dailyGoalService.js:16-18 | the lookup finds a goal of the user for today, or reports that there is none |
| DailyGoals.Saved | src/services/dailyGoalService.js:20-43 | saving gives today's goal the data's target and minutes and the flag "minutes reach target", leaving every other goal as it was, or appends such a goal when there is none |
| DailyGoals.Credited | src/services/dailyGoalService.js:104-128 | crediting adds the minutes to today's goal, keeps its target, recomputes its flag and leaves every other goal as it was, or appends a goal with target 30 and just these minutes |
| DailyGoals.TodayView | src/services/dailyGoalService.js:63-79 | today's goal is reported, or target 30, 0 minutes and not achieved when there is none |
| DailyGoals.SavedKeepsInvariants | src/services/dailyGoalService.js:20-43 | saving keeps every achieved flag equal to "minutes reach target" and one goal per user and day, and touches no other goal |
| DailyGoals.CreditedKeepsInvariants | src/services/dailyGoalService.js:104-128 | crediting keeps the same two invariants and touches no other goal |
| DailyGoals.CreditThenView | src/services/dailyGoalService.js:67-128 | after crediting m minutes, today's view shows the earlier minutes (0 by default) plus m, the same target, and the flag "minutes reach target" |
| DailyGoals.GoalStore.SaveDailyGoal | src/services/dailyGoalService.js:4-50 | without a user nothing changes; otherwise the collection becomes `Saved` and the returned goal is today's, stored, holds the data's target and minutes, and is achieved exactly when the minutes reach the target |
| DailyGoals.GoalStore.GetTodayGoal | src/services/dailyGoalService.js:53-86 | without a user it fails; otherwise it reports today's view |
| DailyGoals.GoalStore.UpdateCompletedMinutes | src/services/dailyGoalService.js:89-135 | without a user nothing changes; otherwise the collection becomes `Credited` and the returned goal is today's, stored, holding the earlier minutes (0 when there was no goal) plus the new ones and the earlier target (30 when there was no goal), and achieved exactly when its minutes reach its target |
| DailyGoals.LeadingRun | src/services/dailyGoalService.js:173-187 | the run of leading one-day steps is shorter than the list |
| DailyGoals.LeadingRunIsConsecutive | src/services/dailyGoalService.js:173-187 | every step inside the run is exactly one day, and the step right after it is not |
| DailyGoals.Streak | src/services/dailyGoalService.js:154-189 | the streak is 0 with no achieved goal or when the latest is older than yesterday, and otherwise between 1 and the number of goals |
| DailyGoals.GetGoalStreak | src/services/dailyGoalService.js:138-196 | without a user it fails; otherwise the loop with its early exit returns the streak of the first hundred achieved goals |
| DailyGoals.Page | src/services/dailyGoalService.js:148-152 | the page is a prefix of the listing of at most a hundred goals |
| Achievements.Thresholds | src/services/achievementService.js:62-157 | each family's thresholds are non-empty, positive and strictly ascending |
| Achievements.KindOf | src/services/achievementService.js:83-175 | each family has its own achievement type: speed_milestone, accuracy_milestone or streak |
| Achievements.ReachedIsPrefix | src/services/achievementService.js:65 | over ascending thresholds, the filtered thresholds are the longest prefix the value reaches: each kept one is reached and the first one left out is not |
| Achievements.HighestMilestoneIsLargestReached | src/services/achievementService.js:62-69 | the popped milestone is the largest threshold the value reaches and is one of the thresholds; there is none exactly when the value is below the smallest |
| Achievements.DescriptionInjective | src/services/achievementService.js:72-85 | distinct milestones of a family have distinct descriptions, so the existence check finds only the same milestone |
| Achievements.AwardFor | src/services/achievementService.js:52-95 | a check creates the user's achievement of the family's type, described by the highest reached milestone, only when no such achievement exists; it creates none when one exists |
| Achievements.AfterCheck | src/services/achievementService.js:71-87 | a check keeps every earlier achievement and adds at most one |
| Achievements.CheckIsIdempotent | src/services/achievementService.js:71-78 | repeating a check with the same value creates nothing more |
| Achievements.BelowFirstThresholdAwardsNothing | src/services/achievementService.js:67-69 | a value below the first threshold creates nothing |
| Achievements.OnlyHighestIsAwarded | src/services/achievementService.js:64-87 | the created achievement names the highest reached milestone; lower ones are not back-filled |
| Achievements.AchievementStore.CreateAchievement | src/services/achievementService.js:4-25 | without a user nothing is stored; otherwise the data is stored with the user's id and returned |
| Achievements.AchievementStore.CheckMilestone | src/services/achievementService.js:52-95 | without a user nothing changes; otherwise the collection becomes `AfterCheck` and the answer says whether an achievement was awarded and which |
| Achievements.AchievementStore.CheckSpeedMilestone | src/services/achievementService.js:52-95 | without a user nothing changes and it fails; otherwise the collection becomes `AfterCheck` over the speed thresholds and the answer reports whether the highest reached milestone was newly awarded, with that achievement |
| Achievements.AchievementStore.CheckAccuracyMilestone | src/services/achievementService.js:98-141 | without a user nothing changes and it fails; otherwise the collection becomes `AfterCheck` over the accuracy thresholds and the answer reports whether the highest reached milestone was newly awarded, with that achievement |
| Achievements.AchievementStore.CheckStreakMilestone | src/services/achievementService.js:144-186 | without a user nothing changes and it fails; otherwise the collection becomes `AfterCheck` over the streak thresholds and the answer reports whether the highest reached milestone was newly awarded, with that achievement |
| AchievementsView.OfTypeMembers | src/components/AchievementsComponent.jsx:35-42 | a type's group holds exactly the achievements of that type, as many as there are |
| AchievementsView.OfTypeKeepsOrder | src/components/AchievementsComponent.jsx:40 | grouping distributes over concatenation, so achievements keep their input order within a group |
| AchievementsView.Push | src/components/AchievementsComponent.jsx:37-40 | one reduce step adds the achievement's type to the groups' keys |
| AchievementsView.GroupedIsOfType | src/components/AchievementsComponent.jsx:35-42 | the groups are keyed by exactly the types that occur, and each holds its type's achievements in input order |
| AchievementsView.EachAchievementInItsGroup | src/components/AchievementsComponent.jsx:35-42 | every achievement is in its type's group, and a group holds only input achievements of its type |
| AchievementsView.GroupSizesSum | src/components/AchievementsComponent.jsx:35-42 | the groups, in first-occurrence order of their types, have sizes that add up to the number of achievements |
| AchievementsView.GroupByType | src/components/AchievementsComponent.jsx:35-42 | the in-place reduce builds exactly the groups, and the listing order is the first-occurrence order of the types |
| AchievementsView.Heading | src/components/AchievementsComponent.jsx:67-70 | the three families get "Speed Milestones", "Accuracy Milestones" and "Practice Streaks"; any other type gets "Other Achievements" |
| AchievementsView.IconOf | src/components/AchievementsComponent.jsx:79-81 | rocket exactly for speed, target exactly for accuracy, fire exactly for streak, otherwise trophy |
| AchievementsView.FamiliesHaveOwnHeadings | src/components/AchievementsComponent.jsx:67-70 | the three families get distinct headings, none of them the catch-all |
| Experience.Credit | src/services/experienceService.js:17-21 | each of the three counters grows by the score, so their differences are unchanged, and the other fields stay |
| Experience.DailyReset | src/services/experienceService.js:37-48 | every user, and no one else, has the daily counter at 0 with every other field unchanged |
| Experience.WeeklyReset | src/services/experienceService.js:61-72 | every user, and no one else, has the weekly counter at 0 with every other field unchanged |
| Experience.ResetsAreIdempotent | src/services/experienceService.js:42-46 | running a reset twice is running it once |
| Experience.CreditAfterDailyReset | src/services/experienceService.js:17-21 | after a daily reset, a session leaves exactly its score in the daily counter while the other counters keep accumulating |
| Experience.UserStore.UpdateUserExperience | src/services/experienceService.js:4-31 | without a user, or with no row for them, nothing changes; otherwise only their row changes, to the credited one, which is returned |
| Experience.UserStore.ResetDailyExperience | src/services/experienceService.js:34-55 | the loop over all users leaves exactly the daily reset |
| Experience.UserStore.ResetWeeklyExperience | src/services/experienceService.js:58-78 | the loop over all users leaves exactly the weekly reset |
| Common.Round | src/services/keyPerformanceService.js:26 | `Math.round` of a quotient is the integer nearest to it, halves rounded up |
| Common.RoundWithin | src/services/typingSessionService.js:81-83 | a rounded quotient stays within any integer bounds of the exact quotient |
| Common.FirstOccurrencesSnoc | src/services/typingSessionService.js:139 | a new key goes to the end of the key order; a known key leaves it unchanged |
| Common.FirstOccurrencesFacts | src/services/typingSessionService.js:124-139 | the key order holds exactly the elements that occur, each once, and is no longer than the input |
| Common.FirstOccurrencesOrdered | src/services/typingSessionService.js:124-139 | the key order lists elements by the position of their first occurrence |
| Common.FirstOccurrencesAscending | src/services/typingSessionService.js:118-139 | the key order of a non-decreasing input strictly increases |
| Common.SumCountsFirstOccurrences | src/services/typingSessionService.js:124-136 | the counts of the distinct keys add up to the number of elements |
| Common.NatToStringRoundTrip | src/services/achievementService.js:84 | reading back a number's decimal rendering gives the number |

## Left out

- The live-metric block after every press (src/App.jsx:300-308) is not modelled. It reads the counters from before the press through a stale closure and reads the wall clock. It also runs after the session-end reset and overwrites its zeroing of speed, accuracy and score. So the `speed`, `accuracy` and `score` state fields are not part of `EngineState`.
- KeyHandler.Complete: the session record that `handleKeyDown` saves at session end (src/App.jsx:158-170) is not modelled. That record uses the stale live metrics. `fetchUpdatedTopSpeed` and the `localStorage` copy of the top speed are left out too. When time has passed, `await saveTypingSession` (src/App.jsx:170) sits between setting the end time and speeds (:144-154) and the reset (:175-184). Until the save resolves, the cursor stays at the end of the last word with the start time set, so another space in that window completes and saves again. The model treats session end as one step, so it does not capture that window.
- The programming-mode early return decided by a DOM query (src/App.jsx:128-134) is left out.
- Word drawing is left out: the random shuffle and the truncation or padding to 30 words. The new words are a parameter; only the selected-letter filter is modelled.
- The end time: when time has passed, session end sets it, then awaits the save, and only then clears it (src/App.jsx:143-178). The model folds both halves into one step, so the field is always `None` after a press.
- `handleSessionFinish` is called from inside rendering, possibly several times per render, and awaits I/O between steps. The model computes the aggregation once, as a function of the records, the word count and the elapsed time.
- Floating point: speeds, accuracies and minutes are integers rounded as `Math.round` rounds exact quotients. `TypingSessions.SessionData` holds integers, so a `NaN` speed or accuracy cannot be stored in the model. `KeyPerformance.KeyData` likewise holds an integer speed: the component sends `speed: wpm` (src/components/TypingAreaComponent.jsx:41, 72-77), which is `Infinity` when no time passed, and `Merge` would then keep `Infinity`. The model's per-key update carries `None` in that case (`TypingArea.KeyDelta`), which the store's integer speed cannot receive.
- `for...in` lists integer-like keys (such as "1") before the other keys. The model lists every key in first-occurrence order, which differs only for digit keys.
- Lower-casing is ASCII-only.
- The server side of every query is left out: filter evaluation, sorting, pagination and `totalItems` counting. Each query result comes in as a listing parameter, and the model takes its first page.
- `getUserSessions`, `getAllKeyPerformance`, `getProblemKeys` and `getUserAchievements` are left out. They only forward a query to the server.
- Network errors, aborts and thrown exceptions are left out. The only failures modelled are a missing signed-in user and, for the experience update, a missing user row.
- Dates are day numbers. The conversion of `new Date()` and `toISOString` to a day is left out. So is the time-zone mismatch in `getGoalStreak`, which compares UTC date strings with local midnight.
- Achievements.AchievementStore.CheckAccuracyMilestone: the code reads the user id from `authStore.model` (src/services/achievementService.js:105) rather than `authStore.record`; the model treats both as the signed-in user.
- Achievements.AchievementStore.CheckStreakMilestone: the same `authStore.model` read (src/services/achievementService.js:151), treated the same way.
- Experience.UserStore.ResetDailyExperience: the updates are sent concurrently with `Promise.all`; the model applies them one user at a time. A failure part-way through is not modelled.
- KeyPerformance.KeyFiltersRoundTrip: a key that contains a double quote ends its clause early in the filter syntax, so the round trip is stated only for keys without one; the source does no escaping.
- Experience.UserStore.ResetWeeklyExperience: the same `Promise.all` of per-user updates (src/services/experienceService.js:66-72), applied one user at a time in the model; a failure part-way through is not modelled.
- The icons are named values rather than emoji characters.
- The rendering, routing, pages, authentication and the backend schema files are left out. So are the scheduled reset jobs; the reset rule itself is modelled.
