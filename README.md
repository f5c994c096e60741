# Exam-prep front end: a verified model of its state logic

The application is a browser front end for competitive-exam preparation. It has no back end:
all of its behaviour is in React components and hooks. This project models the part of that
behaviour which decides something, in Dafny, and proves what those pieces promise. The modelled
parts are:

- **The Zero-to-Hero journey** (`Journey`, `DailyPlan`, `SubjectSelectionScreen`,
  `GoalSelectionScreen`, `Rewards`, `Certificate`, `JourneyView`).
  - The persisted `JourneyState` record and its eight updaters.
  - The generated table of five tasks per day, and task completion with the derived
    completed-day list and streak.
  - The daily plan's lock rule and its three-day pause cap.
  - The subject and goal pickers, the badges, the certificate figures, and which screen the
    page draws.
- **The exam-stage progress bar** (`StageProgress`): which stage is final, the status menu and
  status text, the completion percentage, and the edit dialog's state.
- **The registration wizard** (`Registration`).
  - The per-step checks, written into an error record where a later message for a key replaces
    an earlier one.
  - The step counter, which stays within 1..4.
  - The profile that is stored after registering.
- **The performance level banner** (`Levels`): the fifteen-threshold ladder from score to tier,
  name and colour.
- **Mentor search** (`MentorSearch`).
  - The search, price and rating filter.
  - The five sort orders, implemented as an insertion sort on an array.
  - The wishlist set, the price inputs and the filter reset.
- **Lists and lookups** (`ExamNotifications`, `CurrentAffairs`, `StudentCourses`, `Sidebar`,
  `ProfileButton`).
  - Tab filters and the external-link confirmation dialog.
  - The course category page and the sidebar menus with their active-path test.
  - The profile button's initials and routes.

Shared helpers live in `Wrappers` (an `Option`), `Seqs` (filter, count, toggle, subsequence),
`JsMath` (`Math.round` and percentages over reals) and `Text`. `Text` holds the JavaScript
string operations the source uses: white-space trimming, ASCII case mapping, `includes`,
`startsWith`, `parseInt`, `split`, number printing and `length` in UTF-16 code units.

The form of each part follows the code:

- **Updaters that copy a record** (`setJourneyState(prev => ({...prev, ...}))`) are functions on
  a datatype. Their contracts state both the changed fields and the unchanged rest.
- **Component state that handlers overwrite** is a class with fields and `modifies` clauses:
  - `GoalSelection`;
  - `SubjectSelection`;
  - `StageEditor`;
  - `RegistrationWizard`;
  - `MentorSearchPage`;
  - `ExamNotificationsPage`;
  - `ProfileMenu`.
- **Loops and step-by-step code** are methods:
  - the day-by-day loop of `generateDailyTasks` carries invariants and is proved to fill
    exactly the table `Journey.DailyTable`, whose shape is proved separately;
  - the in-place mentor `sort` is an insertion sort on an array, with invariants, proved to
    leave the array sorted by the chosen option's key and a permutation of its input;
  - `validateStep` is a switch of `if` statements with no loop. Each step is one method that
    writes the error record check by check, and each is proved equal to `StepErrors`.

## Model

| member | source | states |
|---|---|---|
| Journey.TotalDays | src/components/student/zero-to-hero/DailyPlan.tsx:13 | the plan length shown is the chosen goal, or 30 when none was chosen; it is always 5, 10 or 30 |
| Journey.InitialState | src/hooks/useZeroToHero.ts:36-49 | a first visit is on the welcome screen at day 1, with no goal (so 30 days are shown), is not an active journey, and satisfies the journey invariant: five distinct-id tasks per listed day, completed days listed once and each complete |
| Journey.HasActiveJourney | src/hooks/useZeroToHero.ts:54 | an active journey has a goal, so the plan length shown is that goal and not the default 30 |
| Journey.SubjectFor | src/hooks/useZeroToHero.ts:153-154 | for a non-empty subject list, day d studies `subjects[(d-1) mod n]` |
| Journey.GenerateDailyTasks | src/hooks/useZeroToHero.ts:149-201 | the record the loop fills is the table `DailyTable(duration, subjects)`: day by day, five tasks per day |
| Journey.TaskIdInjective | src/hooks/useZeroToHero.ts:158-190 | two ids `${day}-${type}` are equal only for the same day and the same task type |
| Journey.FirstDashAfterDigits | src/hooks/useZeroToHero.ts:158 | in a printed day number followed by '-', the first '-' comes right after the digits |
| Journey.DayTasksShape | src/hooks/useZeroToHero.ts:156-197 | one day holds video, flashcard, quiz, revision and test, with ids `d-type`, durations 15/10/15/10/20, none completed, the lesson titled after the day's subject, and distinct ids |
| Journey.DailyTableShape | src/hooks/useZeroToHero.ts:152-197 | the table has exactly the keys 1..duration, and every day has the five-task shape above |
| Journey.DailyTableIdsAcrossDays | src/hooks/useZeroToHero.ts:152-197 | tasks of two different days never share an id |
| Journey.StartJourney | src/hooks/useZeroToHero.ts:56-61 | the step becomes goal selection; every other field is kept |
| Journey.SelectGoal | src/hooks/useZeroToHero.ts:63-69 | the duration is recorded and the step becomes subject selection; every other field is kept |
| Journey.SelectSubjectsAndWeakAreas | src/hooks/useZeroToHero.ts:71-83 | subjects, weak areas and start date are stored and the plan opens; the table has days 1..goal (none without a goal); the other fields are kept |
| Journey.CompleteTask | src/hooks/useZeroToHero.ts:85-108 | only the completed flag of tasks with that id on that day changes, and only to true; a day without a list changes nothing; the day is appended once, exactly when it is then complete; the streak grows by one on every call that leaves the day complete |
| Journey.CompleteTaskMarksOne | src/hooks/useZeroToHero.ts:89-91 | on a day with distinct ids, completing task i's id marks task i and nothing else |
| Journey.PauseJourney | src/hooks/useZeroToHero.ts:110-115 | paused days grow by one with no cap; nothing else changes |
| Journey.CompleteJourney | src/hooks/useZeroToHero.ts:117-122 | the step becomes journey-complete, which is not an active journey; nothing else changes |
| Journey.ResetJourney | src/hooks/useZeroToHero.ts:124-126 | every field returns to its initial value, the accuracy included: the result is the initial state |
| Journey.AddBadge | src/hooks/useZeroToHero.ts:128-133 | the name is appended even when already present; nothing else changes |
| Journey.TransitionsIgnoreStep | src/hooks/useZeroToHero.ts:56-126 | the step updaters give the same result whatever the current step, and reset gives the initial state |
| Journey.SelectSubjectsWellFormed | src/hooks/useZeroToHero.ts:71-83 | generating the plan before any day is complete establishes that invariant |
| Journey.CompleteTaskWellFormed | src/hooks/useZeroToHero.ts:85-108 | completing a task preserves that invariant, so completed days never repeat |
| DailyPlan.CurrentDayTasks | src/components/student/zero-to-hero/DailyPlan.tsx:14 | the shown list is the current day's list, or empty when the day has none |
| DailyPlan.CompletedCount | src/components/student/zero-to-hero/DailyPlan.tsx:15 | the number of done tasks is at most the list length, and equals it exactly when every task is done |
| DailyPlan.CompletedCountZero | src/components/student/zero-to-hero/DailyPlan.tsx:15 | the count is zero exactly when no task is done |
| DailyPlan.ProgressPercent | src/components/student/zero-to-hero/DailyPlan.tsx:16-17 | today's progress lies in [0,100]; it is 0 with no tasks; 100 exactly when all are done; 0 exactly when none is |
| DailyPlan.ProgressLabelInRange | src/components/student/zero-to-hero/DailyPlan.tsx:101 | the rounded label is a whole percentage in 0..100, and 0 when nothing is done |
| DailyPlan.DayProgress | src/components/student/zero-to-hero/DailyPlan.tsx:18 | overall progress times total days equals 100 times the current day; it lies in (0,100] for a day within the plan |
| DailyPlan.IsLocked | src/components/student/zero-to-hero/DailyPlan.tsx:109 | the first task is never locked; while the done tasks form a prefix (kept by `ClicksKeepPrefix`), a locked task and all after it are undone, and an open task has every earlier task done |
| DailyPlan.HandleCompleteTask | src/components/student/zero-to-hero/DailyPlan.tsx:36-37 | completes the id on the current day only: other days are untouched, and on the current day exactly the tasks with that id become done |
| DailyPlan.StartTask | src/components/student/zero-to-hero/DailyPlan.tsx:154-160 | the button is offered only on a task that is not done and not locked; "Start Task" on task i marks task i as done and nothing else |
| DailyPlan.FreshDayIsPrefix | src/components/student/zero-to-hero/DailyPlan.tsx:109 | a day with nothing done has its done tasks as a prefix |
| DailyPlan.StartTaskKeepsPrefix | src/components/student/zero-to-hero/DailyPlan.tsx:107-160 | starting an offered task keeps the done tasks a prefix of the list |
| DailyPlan.ClicksKeepPrefix | src/components/student/zero-to-hero/DailyPlan.tsx:107-160 | after any sequence of clicks, the done tasks still form a prefix of the day's list |
| DailyPlan.HandlePause | src/components/student/zero-to-hero/DailyPlan.tsx:45-61 | at three or more paused days nothing changes; below three, one more day is paused; no other field changes |
| DailyPlan.PauseDisabled | src/components/student/zero-to-hero/DailyPlan.tsx:185 | the button is disabled exactly when pressing it would change nothing |
| DailyPlan.RemainingPauseDays | src/components/student/zero-to-hero/DailyPlan.tsx:178 | remaining plus paused is three, and some remain exactly when the button is enabled |
| DailyPlan.PauseToastAgreesWithScreen | src/components/student/zero-to-hero/DailyPlan.tsx:55-58 | after a pause, the number the toast announces is the allowance the screen then shows, and it is not negative |
| DailyPlan.PauseTimesCapped | src/components/student/zero-to-hero/DailyPlan.tsx:45-61 | after n presses, the paused days are min(start + n, 3); nothing else changes |
| Seqs.Toggle | src/components/student/zero-to-hero/SubjectSelection.tsx:48-54 | the named item's membership flips, and every other item keeps its membership |
| Seqs.ToggleTwiceAbsent | src/components/student/zero-to-hero/SubjectSelection.tsx:48-54 | toggling an absent item twice returns the original list |
| Seqs.ToggleKeepsOthers | src/components/student/zero-to-hero/SubjectSelection.tsx:48-54 | toggling keeps the other items in their relative order |
| Seqs.ToggleNoDup | src/components/student/zero-to-hero/SubjectSelection.tsx:48-54 | a list without duplicates stays without duplicates |
| SubjectSelectionScreen.SubjectNamesDistinct | src/components/student/zero-to-hero/SubjectSelection.tsx:15-46 | the five offered subjects have distinct names |
| SubjectSelectionScreen.TopicsOf | src/components/student/zero-to-hero/SubjectSelection.tsx:78 | a subject without an entry has no weak topics |
| SubjectSelectionScreen.ToggledWeakAreas | src/components/student/zero-to-hero/SubjectSelection.tsx:56-64 | the topic flips in that subject's list, the subject's other topics keep their membership, and every other subject's entry is untouched |
| SubjectSelectionScreen.ToggleWeakTopicTwice | src/components/student/zero-to-hero/SubjectSelection.tsx:56-64 | toggling an absent topic twice restores the subject's topics and leaves the others unchanged |
| SubjectSelectionScreen.WeakAreasArray | src/components/student/zero-to-hero/SubjectSelection.tsx:76-79 | one entry per selected subject, in selection order, with that subject's topics or none |
| SubjectSelectionScreen.WeakAreasArrayDropsUnticked | src/components/student/zero-to-hero/SubjectSelection.tsx:76-79 | a deselected subject's topics are dropped; a selected subject carries its recorded topics |
| SubjectSelectionScreen.SubjectSelection.constructor | src/components/student/zero-to-hero/SubjectSelection.tsx:12-13 | starts with no subjects and no weak topics |
| SubjectSelectionScreen.SubjectSelection.ToggleSubject | src/components/student/zero-to-hero/SubjectSelection.tsx:48-54 | the subject's membership flips; the others keep membership and order; no duplicates appear; weak topics are unchanged |
| SubjectSelectionScreen.SubjectSelection.ToggleWeakTopic | src/components/student/zero-to-hero/SubjectSelection.tsx:56-64 | the weak-topic record becomes the toggled record; the subjects are unchanged |
| SubjectSelectionScreen.SubjectSelection.HandleGeneratePathway | src/components/student/zero-to-hero/SubjectSelection.tsx:66-81 | with no subject selected the journey is unchanged; otherwise the plan is generated from the selection and its weak-area array |
| GoalSelectionScreen.GoalsOffered | src/components/student/zero-to-hero/GoalSelection.tsx:22-48 | the offered durations are 5, 10 and 30, and only 30 is recommended |
| GoalSelectionScreen.GoalSelection.constructor | src/components/student/zero-to-hero/GoalSelection.tsx:19-20 | starts with no goal and the confirmation closed |
| GoalSelectionScreen.GoalSelection.HandleGoalSelect | src/components/student/zero-to-hero/GoalSelection.tsx:50-53 | records the duration and opens the confirmation |
| GoalSelectionScreen.GoalSelection.ConfirmGoal | src/components/student/zero-to-hero/GoalSelection.tsx:55-65 | selects the recorded goal if there is one, and otherwise leaves the journey alone; the confirmation always closes |
| GoalSelectionScreen.GoalSelection.GoBack | src/components/student/zero-to-hero/GoalSelection.tsx:135 | closes the confirmation and keeps the recorded goal |
| Rewards.AllBadges | src/components/student/zero-to-hero/RewardsSection.tsx:9-16 | the six badges in order, each unlocked exactly under its threshold; Halfway Hero needs twice the completed days to reach the plan length |
| Rewards.Unlocked | src/components/student/zero-to-hero/RewardsSection.tsx:18 | keeps exactly the unlocked badges |
| Rewards.Locked | src/components/student/zero-to-hero/RewardsSection.tsx:19 | keeps exactly the locked badges |
| Rewards.UnlockedBadges | src/components/student/zero-to-hero/RewardsSection.tsx:18 | the earned badges are exactly the unlocked ones of the six, in display order, at most six |
| Rewards.LockedBadges | src/components/student/zero-to-hero/RewardsSection.tsx:19 | the badges to earn are exactly the locked ones of the six, in display order, and number six minus the earned ones |
| Rewards.SplitByUnlocked | src/components/student/zero-to-hero/RewardsSection.tsx:18-19 | any badge list splits into its unlocked and locked parts, each in order, with no badge lost or added |
| Rewards.BadgesPartition | src/components/student/zero-to-hero/RewardsSection.tsx:18-29 | the two lists partition the six badges in display order, and their sizes sum to 6 |
| Rewards.StreakBadgesNested | src/components/student/zero-to-hero/RewardsSection.tsx:11-12 | the 10-day badge implies the 5-day badge |
| Rewards.NoBadgeBeforeProgress | src/components/student/zero-to-hero/RewardsSection.tsx:10-15 | with no completed day, a streak below 5, accuracy below 80 and fewer than 3 subjects, no badge is unlocked |
| Certificate.CompletionRate | src/components/student/zero-to-hero/CompletionCertificate.tsx:81 | the rounded rate is 0..100 while completed days fit the plan; 100 when all are done; 0 when none is |
| Certificate.WeakTopicCount | src/components/student/zero-to-hero/CompletionCertificate.tsx:109 | the sum of the topic-list lengths; 0 with no weak areas |
| Certificate.WeakTopicCountAppend | src/components/student/zero-to-hero/CompletionCertificate.tsx:109 | the sum over joined lists is the sum of the two sums |
| Certificate.WeakTopicCountIsTopicTotal | src/components/student/zero-to-hero/CompletionCertificate.tsx:109 | the sum equals the number of weak topics over all areas |
| Certificate.TotalTasksCompleted | src/components/student/zero-to-hero/CompletionCertificate.tsx:115 | the figure is five per completed day |
| Certificate.FiveEach | src/components/student/zero-to-hero/CompletionCertificate.tsx:115 | days with five tasks each hold five tasks per listed day in total |
| Certificate.TotalTasksMatchesTable | src/components/student/zero-to-hero/CompletionCertificate.tsx:115 | in a well-formed journey, the figure equals the number of tasks in the completed days' lists |
| Certificate.HandleStartNext | src/components/student/zero-to-hero/CompletionCertificate.tsx:27-28 | "Start Next" returns the journey to its initial state and the welcome screen |
| JourneyView.Shows | src/pages/student/ZeroToHero.tsx:37-53 | whatever screen a guard lets through, it is the tabbed plan exactly when a journey is active |
| JourneyView.Rendered | src/pages/student/ZeroToHero.tsx:37-53 | welcome, goal and subject screens show exactly at their steps; the certificate exactly at journey-complete; the tabs exactly when a journey is active (the extra step test is redundant) |
| JourneyView.OneViewAtMost | src/pages/student/ZeroToHero.tsx:37-83 | at most one screen is drawn, and none exactly when the step is active-journey without a goal |
| StageProgress.DraftOf | src/components/student/selfcare/StageProgressBar.tsx:35 | opening a stage copies its name, status, score, date and notes into the draft |
| StageProgress.IsFinalStage | src/components/student/selfcare/StageProgressBar.tsx:46-48 | the last stage is always final |
| StageProgress.FinalStageIff | src/components/student/selfcare/StageProgressBar.tsx:46-48 | a stage is final exactly when it is last or its lower-cased name contains "final"; the last stage is always final |
| StageProgress.AvailableStatuses | src/components/student/selfcare/StageProgressBar.tsx:126-143 | a final stage offers pending, selected and not-selected; any other offers pending, cleared, not-cleared and n/a |
| StageProgress.StatusText | src/components/student/selfcare/StageProgressBar.tsx:107-124 | a final stage reads only selected, not selected or pending; any other stage only cleared, not cleared, N/A or pending; a pending stage reads "Pending" |
| StageProgress.StatusTextMatchesMenu | src/components/student/selfcare/StageProgressBar.tsx:107-143 | every status in a stage's menu reads as its menu caption; a status outside the menu (such as 'cleared' on a final stage) reads "Pending" |
| StageProgress.CompletedStages | src/components/student/selfcare/StageProgressBar.tsx:145-147 | counts the cleared or selected stages; at most the number of stages, and equal exactly when all are completed |
| StageProgress.ProgressPercentage | src/components/student/selfcare/StageProgressBar.tsx:148 | in [0,100]; 0 with no stages; 100 exactly when every stage is completed; 0 exactly when none is |
| StageProgress.PercentageLabelInRange | src/components/student/selfcare/StageProgressBar.tsx:222 | the rounded label is within 0..100 |
| StageProgress.DraftStatus | src/components/student/selfcare/StageProgressBar.tsx:273 | the menu shows the draft's status, or pending when it has none |
| StageProgress.ShowsScoreField | src/components/student/selfcare/StageProgressBar.tsx:289-290 | the score box shows exactly for the statuses the menus offer other than pending and N/A |
| StageProgress.StageEditor.constructor | src/components/student/selfcare/StageProgressBar.tsx:19-20 | starts closed with an empty draft |
| StageProgress.StageEditor.HandleStageClick | src/components/student/selfcare/StageProgressBar.tsx:23-36 | a stage the editability check refuses changes nothing; an accepted one opens the editor on that index, with the stage as draft |
| StageProgress.StageEditor.HandleStageUpdate | src/components/student/selfcare/StageProgressBar.tsx:38-44 | with the editor open, emits exactly one (index, draft) update, then closes and clears the draft; with it closed, emits nothing and changes nothing |
| StageProgress.StageEditor.Cancel | src/components/student/selfcare/StageProgressBar.tsx:321 | closes the editor and keeps the draft |
| StageProgress.StageEditor.SetStatus | src/components/student/selfcare/StageProgressBar.tsx:274 | overwrites only the draft's status |
| StageProgress.StageEditor.SetScore | src/components/student/selfcare/StageProgressBar.tsx:296 | overwrites only the draft's score |
| StageProgress.StageEditor.SetDate | src/components/student/selfcare/StageProgressBar.tsx:306 | overwrites only the draft's date |
| StageProgress.StageEditor.SetNotes | src/components/student/selfcare/StageProgressBar.tsx:315 | overwrites only the draft's notes |
| Text.AllSpaceIffTrimEmpty | src/components/auth/AuthModal.tsx:243 | a string is all white space exactly when `trim()` leaves nothing |
| Registration.BlankIsTrimEmpty | src/components/auth/AuthModal.tsx:243-247 | the blank test is `!s.trim()` |
| Registration.Rules | src/components/auth/AuthModal.tsx:241-270 | each step checks only the fields of its own screen; a step number outside 1..4 checks nothing, and every step inside it checks something |
| Registration.StepErrors | src/components/auth/AuthModal.tsx:238-273 | the record names only fields of the step validated, and is empty for a step outside 1..4 |
| Registration.EmailPattern | src/components/auth/AuthModal.tsx:246 | a matching address has at least five characters, an '@' and a '.' |
| Text.Utf16Length | src/components/auth/AuthModal.tsx:251 | the JavaScript length lies between the number of characters and twice it, and equals it when no character is above U+FFFF |
| Registration.CollectStep | src/components/auth/AuthModal.tsx:239-270 | running the checks from position j is running check j, then the rest |
| Registration.CollectKeys | src/components/auth/AuthModal.tsx:239-270 | a key is in the error record exactly when it was already there or one of its checks broke |
| Registration.CollectLastWins | src/components/auth/AuthModal.tsx:245-251 | the last broken check for a key decides its message |
| Registration.CollectUntouched | src/components/auth/AuthModal.tsx:239-270 | a key with no broken check keeps the message it had |
| Registration.StepErrorsEmptyIff | src/components/auth/AuthModal.tsx:273 | the record is empty exactly when no check of the step broke, and any step outside 1..4 yields an empty record |
| Registration.EmailMessage | src/components/auth/AuthModal.tsx:245-246 | the email has an error exactly when the pattern fails, and it then reads "Email is invalid", also for an empty email |
| Registration.PatternNotBlank | src/components/auth/AuthModal.tsx:245-246 | an email matching the pattern is never blank, so the "required" check is subsumed |
| Registration.PasswordMessage | src/components/auth/AuthModal.tsx:250-252 | the password has an error exactly when it is shorter than 8 UTF-16 code units, and it then reads the length message; the confirmation has an error exactly when they differ |
| Registration.AccountStepIffValid | src/components/auth/AuthModal.tsx:242-247 | step 1 passes exactly when username, name and phone are not blank and the email matches the pattern |
| Registration.PasswordStepIffValid | src/components/auth/AuthModal.tsx:249-252 | step 2 passes exactly when the password has at least 8 UTF-16 code units and equals its confirmation |
| Registration.ExamStepIffValid | src/components/auth/AuthModal.tsx:254-264 | step 3 passes exactly when there is a category, 'others' has a non-blank custom category, any other category has a target exam, and target 'others' has a non-blank custom exam |
| Registration.ScheduleStepIffValid | src/components/auth/AuthModal.tsx:266-268 | step 4 passes exactly when a date and a state are given |
| Registration.StepErrorsEmptyIffValid | src/components/auth/AuthModal.tsx:238-273 | for every step number, the validation succeeds exactly when the step's rules hold |
| Registration.AccountErrors | src/components/auth/AuthModal.tsx:242-248 | the record built field by field is the step-1 record of the rules |
| Registration.PasswordErrors | src/components/auth/AuthModal.tsx:249-253 | the record built field by field is the step-2 record of the rules |
| Registration.ExamErrors | src/components/auth/AuthModal.tsx:254-265 | the record built field by field is the step-3 record of the rules |
| Registration.ScheduleErrors | src/components/auth/AuthModal.tsx:266-269 | the record built field by field is the step-4 record of the rules |
| Registration.BuildProfile | src/components/auth/AuthModal.tsx:313-323 | the custom category is present exactly when the category is 'others', and the custom exam exactly when the target is 'others'; the other fields are copied |
| Registration.RegistrationWizard.constructor | src/components/auth/AuthModal.tsx:229-230 | starts at step 1 with no errors |
| Registration.RegistrationWizard.ValidateStep | src/components/auth/AuthModal.tsx:238-274 | writes the step's error record and answers whether the step's rules hold |
| Registration.RegistrationWizard.NextStep | src/components/auth/AuthModal.tsx:276-280 | advances by one, capped at 4, exactly when the current step is valid; the step stays within 1..4 |
| Registration.RegistrationWizard.PrevStep | src/components/auth/AuthModal.tsx:282-284 | goes back one, floored at 1; the step stays within 1..4 |
| Registration.RegistrationWizard.HandleRegister | src/components/auth/AuthModal.tsx:304-328 | only the step-4 rules are checked; a profile is stored exactly when they hold and registration succeeds, and it is the built profile |
| Registration.RegisterIgnoresEarlierSteps | src/components/auth/AuthModal.tsx:307 | a form with a blank username can still pass the check made at submission |
| Levels.BannerLevel | src/components/dashboard/WelcomeBanner.tsx:32-33 | the banner's level comes from its score, or from 45 when no score is given |
| Levels.GetLevelInfo | src/components/dashboard/WelcomeBanner.tsx:14-30 | Expert exactly from 80, Advanced exactly in [60,80), Intermediate exactly in [40,60), Beginner exactly below 40; the colour is the tier's; Legend from 90; Novice below 10 |
| Levels.FirstRungAt | src/components/dashboard/WelcomeBanner.tsx:15-28 | on a descending ladder, the first threshold the score reaches decides the level |
| Levels.FirstRungBelowAll | src/components/dashboard/WelcomeBanner.tsx:29 | below every threshold the level is Novice |
| Levels.LadderDescending | src/components/dashboard/WelcomeBanner.tsx:15-28 | the fourteen thresholds strictly decrease |
| Levels.ExpertIsLadder | src/components/dashboard/WelcomeBanner.tsx:15-17 | from 80 up, the if-chain agrees with the ladder |
| Levels.AdvancedIsLadder | src/components/dashboard/WelcomeBanner.tsx:18-21 | from 60 to below 80, the if-chain agrees with the ladder |
| Levels.IntermediateIsLadder | src/components/dashboard/WelcomeBanner.tsx:22-25 | from 40 to below 60, the if-chain agrees with the ladder |
| Levels.BeginnerIsLadder | src/components/dashboard/WelcomeBanner.tsx:26-27 | from 20 to below 40, the if-chain agrees with the ladder |
| Levels.FloorIsLadder | src/components/dashboard/WelcomeBanner.tsx:28-29 | below 20, including negative scores, the if-chain agrees with the ladder |
| Levels.GetLevelInfoIsLadder | src/components/dashboard/WelcomeBanner.tsx:14-30 | for every score, the if-chain is the first-matching-threshold rule |
| Levels.TierMonotone | src/components/dashboard/WelcomeBanner.tsx:14-30 | a higher score never gives a lower tier |
| Levels.LevelNames | src/components/dashboard/WelcomeBanner.tsx:15-29 | the fifteen names, in ladder order, with Novice last |
| Levels.LadderNamesDistinct | src/components/dashboard/WelcomeBanner.tsx:15-29 | the fourteen ladder names differ from each other and from Novice |
| Levels.FirstRungNamed | src/components/dashboard/WelcomeBanner.tsx:15-29 | the level found is Novice or carries the name of one of the rungs |
| Levels.FifteenDistinctNames | src/components/dashboard/WelcomeBanner.tsx:15-29 | every score gets one of the fifteen names, and the fifteen are distinct |
| Levels.DefaultBanner | src/components/dashboard/WelcomeBanner.tsx:32-33 | without a score the banner shows Challenger, Intermediate, in green |
| MentorSearch.LowerTwice | src/components/student/mentorship/FindMentorsPage.tsx:72 | lower-casing twice is lower-casing once |
| MentorSearch.MatchesSearch | src/components/student/mentorship/FindMentorsPage.tsx:72-74 | an empty query lets every mentor through the search test |
| MentorSearch.Matches | src/components/student/mentorship/FindMentorsPage.tsx:72-82 | with an empty query only the price window and the minimum rating decide |
| MentorSearch.SearchIgnoresCase | src/components/student/mentorship/FindMentorsPage.tsx:72-74 | the search gives the same answer for a query and its lower-cased form |
| MentorSearch.FilterMentors | src/components/student/mentorship/FindMentorsPage.tsx:70-83 | a mentor is kept exactly when it is in the base list and passes the search, the inclusive price window and the minimum rating; order is preserved |
| MentorSearch.ExperienceYears | src/components/student/mentorship/FindMentorsPage.tsx:95 | a text without a minus sign never gives a negative number of years |
| MentorSearch.ExperienceOfListing | src/components/student/mentorship/FindMentorsPage.tsx:95 | a listing such as "8+ years" counts as its leading number of years |
| MentorSearch.Compare | src/components/student/mentorship/FindMentorsPage.tsx:86-101 | each comparator is the difference of one numeric key, so it orders exactly as the key does |
| MentorSearch.SortOrderByOption | src/components/student/mentorship/FindMentorsPage.tsx:86-101 | in a sorted list, rating, reviews, experience and price-high descend, and price-low ascends |
| MentorSearch.SwapDown | src/components/student/mentorship/FindMentorsPage.tsx:86 | swaps two neighbours, so the contents are kept |
| MentorSearch.InsertAt | src/components/student/mentorship/FindMentorsPage.tsx:86 | inserts element i into the sorted prefix; the prefix grows by one and stays sorted; the rest is untouched; the contents are kept |
| MentorSearch.SortByKey | src/components/student/mentorship/FindMentorsPage.tsx:86-101 | the array ends sorted by the key and is a permutation of the original |
| MentorSearch.FilteredAndSorted | src/components/student/mentorship/FindMentorsPage.tsx:69-104 | the result is a permutation of the filtered list, holds exactly the matching base mentors, and is sorted by the chosen option |
| MentorSearch.ToggledWishlist | src/components/student/mentorship/FindMentorsPage.tsx:106-116 | the id's membership flips, and every other id keeps its membership |
| MentorSearch.ToggleWishlistTwice | src/components/student/mentorship/FindMentorsPage.tsx:106-116 | two toggles restore the set |
| MentorSearch.MinPriceInput | src/components/student/mentorship/FindMentorsPage.tsx:437 | text without a number gives 0; otherwise its `parseInt` value |
| MentorSearch.MaxPriceInput | src/components/student/mentorship/FindMentorsPage.tsx:445 | text without a number, or reading 0, gives 5000; otherwise its `parseInt` value |
| MentorSearch.PriceInputsReadDigits | src/components/student/mentorship/FindMentorsPage.tsx:437-445 | a typed whole number is read back exactly, except that a maximum of 0 becomes 5000 |
| Text.ParseNatToString | src/components/student/mentorship/FindMentorsPage.tsx:437 | `parseInt` of a printed whole number gives that number |
| Text.ParseLeadingNat | src/components/student/mentorship/FindMentorsPage.tsx:95 | `parseInt` reads a printed whole number followed by text that does not start with a digit as that number |
| MentorSearch.MentorSearchPage.constructor | src/components/student/mentorship/FindMentorsPage.tsx:33-40 | starts with no query, all categories, prices 0..5000, no minimum rating, sorted by rating, and no wishlist |
| MentorSearch.MentorSearchPage.HandleWishlistToggle | src/components/student/mentorship/FindMentorsPage.tsx:106-116 | the wishlist becomes the toggled set; the filters are unchanged |
| MentorSearch.MentorSearchPage.SetMinPrice | src/components/student/mentorship/FindMentorsPage.tsx:437 | only the lower price bound changes, to the parsed input |
| MentorSearch.MentorSearchPage.SetMaxPrice | src/components/student/mentorship/FindMentorsPage.tsx:445 | only the upper price bound changes, to the parsed input |
| MentorSearch.MentorSearchPage.ResetFilters | src/components/student/mentorship/FindMentorsPage.tsx:491-496 | restores the query, the category, prices 0..5000 and the minimum rating 0; the sort and the wishlist are kept |
| MentorSearch.MentorSearchPage.Results | src/components/student/mentorship/FindMentorsPage.tsx:69-104 | the list shown for the current filters: the matching mentors, sorted by the current option |
| ExamNotifications.FilterByTab | src/pages/student/ExamNotifications.tsx:42-47 | 'upcoming' keeps exactly the upcoming exams; 'new' keeps exactly the new ones; any other tab returns the list; order is preserved |
| ExamNotifications.LinkFor | src/pages/student/ExamNotifications.tsx:52-64 | each action reads its own link, and a missing link is '' |
| ExamNotifications.ButtonsDisabledIffNoLink | src/pages/student/ExamNotifications.tsx:295-326 | each button is disabled exactly when its link is empty (the result button also while pending), so an enabled button always opens the dialog |
| ExamNotifications.ResultButtonText | src/pages/student/ExamNotifications.tsx:128-135 | declared, upcoming and pending map to their captions; anything else reads "Result" |
| ExamNotifications.ResultButtonTextsDistinct | src/pages/student/ExamNotifications.tsx:128-135 | the three known statuses read differently from each other and from any other status |
| ExamNotifications.RowBackgroundColor | src/pages/student/ExamNotifications.tsx:137-142 | every row gets one of the six colours |
| ExamNotifications.RowColorsCycle | src/pages/student/ExamNotifications.tsx:137-142 | the colours repeat with period 6, and neighbouring rows differ |
| ExamNotifications.ExamNotificationsPage.constructor | src/pages/student/ExamNotifications.tsx:29-40 | starts on 'all' with the dialog closed and empty |
| ExamNotifications.ExamNotificationsPage.SetActiveTab | src/pages/student/ExamNotifications.tsx:220 | only the tab changes |
| ExamNotifications.ExamNotificationsPage.Results | src/pages/student/ExamNotifications.tsx:42-49 | the rows drawn are the tab filter of the list for the current tab, in list order |
| ExamNotifications.ExamNotificationsPage.HandleExternalLink | src/pages/student/ExamNotifications.tsx:51-81 | an empty link leaves the dialog as it was; otherwise the dialog opens with exactly that exam name, action and link |
| ExamNotifications.ExamNotificationsPage.ConfirmExternalLink | src/pages/student/ExamNotifications.tsx:83-95 | opens the stored link, which is never empty while the dialog is open; only `isOpen` changes, to false |
| ExamNotifications.ExamNotificationsPage.CloseDialog | src/pages/student/ExamNotifications.tsx:97-99 | only `isOpen` changes, to false |
| CurrentAffairs.FilterByTab | src/pages/student/CurrentAffairs.tsx:17-20 | 'all' returns the list; any other tab keeps exactly the items of that type, in order, and the result is no longer than the input |
| CurrentAffairs.FilterByTabCounts | src/pages/student/CurrentAffairs.tsx:19 | every item of the tab's type is kept as often as it occurs, and no other item is kept |
| CurrentAffairs.ShowsEmptyState | src/pages/student/CurrentAffairs.tsx:108-109 | an empty list always shows the empty card; on 'all' it shows exactly for an empty list |
| CurrentAffairs.EmptyStateIff | src/pages/student/CurrentAffairs.tsx:109 | the empty card shows on 'all' exactly when there are no items, and on another tab exactly when no item has that type |
| StudentCourses.InitialCategory | src/pages/student/StudentCourses.tsx:17 | the route parameter, or 'all' when it is missing or empty |
| StudentCourses.FinalCourses | src/pages/student/StudentCourses.tsx:21-25 | with global filters, the global list; with none and 'all', nothing; otherwise exactly the courses of that category, in order |
| StudentCourses.FinalCoursesCounts | src/pages/student/StudentCourses.tsx:25 | each course of the category is kept as often as it occurs, and no other course is kept |
| StudentCourses.FindCategory | src/pages/student/StudentCourses.tsx:31 | finds nothing exactly when no category has the id; otherwise the first one that does |
| StudentCourses.CategoryName | src/pages/student/StudentCourses.tsx:27-33 | "Filtered Courses (n categories)" when filtered; otherwise the found category's name, or "All Courses" |
| StudentCourses.CategoryNameOfListed | src/pages/student/StudentCourses.tsx:27-33 | unfiltered, the name shown for a listed category's id is that category's name |
| Sidebar.Entries | src/components/dashboards/Sidebar.tsx:131-132 | a role outside the six gets no entries |
| Sidebar.NavItems | src/components/dashboards/Sidebar.tsx:61-134 | one item per entry of the role, with path `basePath + '/' + segment`; an unknown role gets none |
| Sidebar.IsActive | src/components/dashboards/Sidebar.tsx:52-58 | the current page's item is always active, and an item is active only on pages at or below its path |
| Sidebar.PathInjective | src/components/dashboards/Sidebar.tsx:159 | two paths under the same base are equal only for equal segments |
| Sidebar.StudentEntriesSegments | src/components/dashboards/Sidebar.tsx:64-79 | the student segments are distinct, and none is "mentorship" |
| Sidebar.MentorEntriesSegments | src/components/dashboards/Sidebar.tsx:81-91 | the mentor segments are distinct, and none is "mentorship" |
| Sidebar.EmployeeEntriesSegments | src/components/dashboards/Sidebar.tsx:93-100 | the employee segments are distinct, and none is "mentorship" |
| Sidebar.AdminEntriesSegments | src/components/dashboards/Sidebar.tsx:102-110 | the admin segments are distinct, and none is "mentorship" |
| Sidebar.SuperAdminEntriesSegments | src/components/dashboards/Sidebar.tsx:112-119 | the super-admin segments are distinct, and none is "mentorship" |
| Sidebar.OwnerEntriesSegments | src/components/dashboards/Sidebar.tsx:121-130 | the owner segments are distinct, and none is "mentorship" |
| Sidebar.SegmentsDistinct | src/components/dashboards/Sidebar.tsx:61-134 | every role's segments are distinct, and none is "mentorship" |
| Sidebar.NavPathsDistinct | src/components/dashboards/Sidebar.tsx:157-159 | the item paths of a role are distinct, as React keys must be |
| Sidebar.DashboardFirst | src/components/dashboards/Sidebar.tsx:65-122 | every known role's menu starts with Dashboard at `basePath/dashboard` |
| Sidebar.ListedItemsMatchExactly | src/components/dashboards/Sidebar.tsx:52-58 | no listed item is `basePath/mentorship`, so each listed item is active exactly when the pathname equals its path |
| Sidebar.AtMostOneActive | src/components/dashboards/Sidebar.tsx:52-58 | no two items of a menu are active at once |
| Sidebar.MentorshipRootUnhighlighted | src/components/dashboards/Sidebar.tsx:52-58 | as written, on the section's root `basePath/mentorship`, a page of the mentorship section, no student item is highlighted, the Mentorship item included |
| Sidebar.IsActiveInSection | src/components/dashboards/Sidebar.tsx:52-58 | the section test: an item is active on its own page |
| Sidebar.SectionHighlightsMentorship | src/components/dashboards/Sidebar.tsx:52-58 | with the section test, exactly the Mentorship item is active on every page of the mentorship section |
| Sidebar.SectionAgreesOutside | src/components/dashboards/Sidebar.tsx:52-58 | outside the mentorship section the section test and the test as written agree |
| Sidebar.SectionAtMostOneActive | src/components/dashboards/Sidebar.tsx:52-58 | with the section test, at most one student item is active at a time |
| ProfileButton.FirstChars | src/components/student/ProfileButton.tsx:35-37 | one character per non-empty word: that word's first character, in order |
| ProfileButton.GetInitials | src/components/student/ProfileButton.tsx:32-39 | an empty name gives "U"; otherwise the upper-cased first characters of the non-empty space-separated words, one per word |
| ProfileButton.SingleWordInitial | src/components/student/ProfileButton.tsx:32-39 | a name without spaces gives its upper-cased first character |
| ProfileButton.GetProfileRoute | src/components/student/ProfileButton.tsx:41-58 | the route is the shared `/profile` exactly when there is no user or the role is not one of the six |
| ProfileButton.ProfileRouteOfRole | src/components/student/ProfileButton.tsx:41-54 | each of the six roles goes to `/<role>/profile` |
| ProfileButton.ChangeExamCategory | src/components/student/ProfileButton.tsx:60-66 | only a student is sent to the exam categories, marked as coming from the profile; anyone else causes nothing |
| ProfileButton.ViewProfileFlag | src/components/student/ProfileButton.tsx:68-74 | on mobile the card flag is kept; on desktop it flips |
| ProfileButton.ViewProfileTwice | src/components/student/ProfileButton.tsx:68-74 | two presses restore the flag |
| ProfileButton.ProfileMenu.constructor | src/components/student/ProfileButton.tsx:25-27 | the card starts as the `showProfileCard` prop says |
| ProfileButton.ProfileMenu.HandleViewProfile | src/components/student/ProfileButton.tsx:68-74 | on mobile, navigates to the profile route; on desktop, flips the card and navigates nowhere |

## Left out

- Local storage, toasts, `console`, `window.open`, `navigate`, `login` and `register` are not
  modelled as effects.
  - What they depend on becomes a parameter: the start instant `now`, the `registerOk`
    outcome, the role.
  - What they carry becomes a result: the link to open, the route to navigate to.
- The category-filter hooks are not part of this model: `useCategoryFilteredMentors`,
  `useCategoryFilteredCourses`, `useCategoryFilteredCurrentAffairs` and
  `useCategoryFilteredExamNotifications`. Their lists and flags are inputs. The same holds for
  `getMentorsForCategory`, `getExamsByCategory` and `useLocalStorage`.
- The mentor page's choice of base list (FindMentorsPage.tsx:54-66) is not modelled. It only
  chooses which hook output to show, and that list is an input to the filter.
- `useStageEditability` is not part of this model. `StageProgress.StageEditor.HandleStageClick`
  takes `isStageEditable` as a function parameter. The disabled-reason text, which only
  feeds a toast, is left out.
- `useSelfCareExams` is not part of this model, so stage updates and archiving are not modelled.
  `StageProgress.StageEditor.HandleStageUpdate` returns the (index, draft) pair it would hand to
  `onStageUpdate`.
- Icons, colours and class names of the stage bar, the task cards and the badges are left out,
  because they are display only. The exceptions are the row colours and the level colours.
- The tab state of the journey page and the mentor view mode are left out, because they only
  choose a layout.
- Floating point: percentages, ratings and accuracy are Dafny reals. `Math.round` is modelled
  as rounding half up (`JsMath.Round`). `NaN`, which none of the modelled computations can
  produce from the modelled inputs, is not represented.
- Text.ParseInt: reads decimal only; `parseInt` without a radix would read a "0x" prefix as
  hexadecimal, which the number inputs and the "N+ years" experience texts never carry.
- MentorSearch.ExperienceYears: an experience string without a leading number makes `parseInt`
  give `NaN`. The JavaScript comparator then returns `NaN`, which `sort` treats as "equal". The
  model orders such a mentor as 0 years instead.
- MentorSearch.FilteredAndSorted: the order among mentors with equal keys is not stated. The
  browser's stable sort keeps their filtered order, and the model promises only sortedness and
  the same multiset.
- MentorSearch.MentorSearchPage: the category dropdown, the sort dropdown, the search box and
  the minimum-rating menu are plain field assignments. They are not written as methods.
- Case mapping (`toLowerCase`, `toUpperCase`) is ASCII only. Other letters are left unchanged.
- Strings are sequences of Unicode scalar values. JavaScript's `length` is modelled in UTF-16
  code units (`Text.Utf16Length`), so the password rule counts as the browser does.
- ProfileButton.GetInitials: `n[0]` in JavaScript is the first UTF-16 code unit, which for a
  word starting with a character above U+FFFF (an emoji, say) is half a surrogate pair. A Dafny
  `char` cannot hold half a pair, so the model takes the whole first character.
- Sidebar.Entries: the 'instructor' role in the component's prop type has no case in the
  switch, so it falls to the default and gets no entries. The model gives every role outside
  the six no entries.
- The collapsed sidebar's user initial and the captions' icons are left out, because they are
  display only.
- Journey.SubjectFor: with an empty subject list, the source computes `NaN` as the index, and
  the lesson title reads "undefined". The model returns "undefined" as the subject and states
  nothing further about that case. The only caller refuses an empty selection.
- Journey.SelectSubjectsAndWeakAreas: without a chosen goal, the source loop `day <= null`
  never runs. The model generates no days in that case.
- Rewards: only the six badge records and their two filters are modelled. The badges the hook
  stores with `addBadge` are not shown by this screen.
- The log-in form, the demo accounts and the login path of the modal are left out, because they
  only call `login`.
- The user-visible texts of toasts and dialogs are left out, because they are display only.
  The exception is the pause toast's number, which `DailyPlan.PauseToastAgreesWithScreen`
  relates to the screen.

## Findings

| source | as written | input that shows it | evidently intended | confidence | as-written member | corrected member |
|---|---|---|---|---|---|---|
| src/components/dashboards/Sidebar.tsx:52-58 | the section test fires only for an item whose path is exactly `basePath/mentorship`, but the student Mentorship item points to `basePath/mentorship/dashboard` (line 67), so no listed item ever takes that branch | the student route `/student/mentorship` (src/routes/StudentRoutes.tsx:51), a page inside the student dashboard layout that opens the mentorship dashboard, where no menu item is highlighted; the layout component is not part of this model, so whether a student sees this `Sidebar` or `StudentSidebar.tsx` there is not confirmed | the Mentorship item is highlighted on every page under `basePath/mentorship`, as the comment on line 54 describes | medium; not executed | Sidebar.MentorshipRootUnhighlighted | Sidebar.SectionHighlightsMentorship |
