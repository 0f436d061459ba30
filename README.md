# EduQuest — a verified Dafny model

EduQuest is a single-page learning app. A student signs in, picks an unlocked
chapter on the dashboard, reads the lesson, and takes timed multiple-choice
quizzes. A quiz result earns experience points (XP) on a tiered scale. The XP
can raise the student's level and award achievement badges. The app also
lists assignments by status and shows a progress review.

This project models the app's logic. It leaves out the rendering.

- `Common` (`common.dfy`) holds `Option` and the JavaScript number
  comparisons the pages share: "the percentage is at least p", "the ratio is
  at least 0.p", and `Math.round` of a percentage.
- `Quiz` (`quiz.dfy`) covers the quiz component:
  - scoring, the XP tiers, the badge and headline tiers;
  - the countdown step and the `m:ss` time display;
  - the per-question verdicts;
  - a `Session` class that holds the quiz's state.
- `App` (`app.dfy`) covers the app shell:
  - the user record and its XP and level rule;
  - quiz and assignment awards, badge awards, and the display name derived
    from the e-mail;
  - the screen routing;
  - an `EduQuest` class that holds the signed-in user and the current screen.
- `Assignments` (`assignments.dfy`) covers the status tabs, the per-status
  counts, the status badge with its grade colour, and which cards show Submit.
- `Review` (`review.dfy`) covers the colour, badge and label tiers of a past
  result, and the rounded percentages.
- `Dashboard` (`dashboard.dfy`) covers the completed count and the content
  totals, the unlocked-only navigation, the card states, and the
  empty-achievements message.
- `Chapter` (`chapter.dfy`) covers:
  - the `**bold**` lesson markup, which is a greedy split on `"**"`;
  - the quiz and submit buttons;
  - a `ChapterView` class holding the selected quiz, which forwards a
    completed quiz to the app.

JavaScript numbers are modelled as exact integers and rationals:

- `(a / b) * 100 >= p` is decided exactly.
- For a zero denominator it follows the JavaScript results: a positive
  numerator gives `Infinity`, which passes every bar; zero gives `NaN` and a
  negative numerator gives `-Infinity`, which pass none.
- `Math.floor(r * 0.8)` is `4 * r / 5`, and likewise for 0.6, 0.4 and 0.2.
- `Math.round(x)` is `floor(x + 1/2)` of the exact value. JavaScript rounds
  the floating-point product instead, which differs at an exact half: it
  computes 23/40·100 as 57.49999999999999 and shows 57%, where
  `Common.RoundedPercent(23, 40)` is 58 (29/200 behaves the same way). The
  tier comparisons are not affected.

The user record keeps three facts, and every award is proved to preserve
them (`Consistent`):

- `level >= 1`;
- `totalXp == 50 * level * (level + 1)`, the threshold after single-step
  level-ups from 100 at level 1;
- no badge is listed twice.

Four behaviours of the code are worth noting:

- The "Perfect Score" badge is awarded when the score is the literal number
  5 (src/App.tsx:106), although the app describes it as "Score 100% on any
  quiz" (src/components/ReviewPage.tsx:82). `App.PerfectScoreIsLiteralFive`
  states the rule as written.
- An award that crosses the threshold raises the level by exactly one and
  keeps the XP as it is. So an award of 0 XP changes nothing while `xp <
  totalXp` (`App.ZeroAwardIsIdentity`), but at or past the threshold it
  still levels up (`App.ZeroAwardAtThresholdLevelsUp`).
- "First Steps" is awarded on a quiz taken at level 1 (src/App.tsx:111), not
  on the first quiz. See "## Findings".
- An assignment card advertises its own reward, such as "+120 XP"
  (src/components/ChapterContent.tsx:193, 326), but a submission always
  earns a flat 100 XP (src/App.tsx:128). `Chapter.SubmitIgnoresAdvertisedReward`
  states this.

## Model

| member | source | states |
|---|---|---|
| Common.RoundedPercent | src/components/ReviewPage.tsx:384 | `Math.round(100 * num / den)` exists exactly when den is non-zero, and then it is the integer r with r - 1/2 <= 100·num/den < r + 1/2 |
| Common.RatioMatchesPercent | src/components/ReviewPage.tsx:387-395 | "the ratio is at least 0.t" and "the percentage is at least 10·t" agree on every input, a zero total included |
| Common.AtLeastPercent | src/components/QuizComponent.tsx:94-114 | whether `(num / den) * 100 >= p` holds in JavaScript, decided exactly: a positive total compares 100·num with p·den, a negative total reverses the comparison, and a zero total passes only with a positive numerator (+Infinity), while NaN and -Infinity fail |
| Common.RatioAtLeast | src/components/ReviewPage.tsx:387-395 | whether `num / den >= tenths / 10` holds in JavaScript, with the same treatment of a positive, negative and zero total |
| Common.AtLeastPercentAntitone | src/components/QuizComponent.tsx:98-105 | a result that clears a percentage bar clears every lower bar |
| Common.AtLeastPercentFloor | src/components/QuizComponent.tsx:94-96 | over a positive total, "percentage >= p" is the same as the floored integer percentage being >= p |
| Common.AtLeastPercentMonotone | src/components/QuizComponent.tsx:98-105 | over a positive total, a higher score clears every percentage bar a lower one clears |
| Common.RoundedPercentInRange | src/components/ReviewPage.tsx:321 | the rounded percentage of a part of a positive whole lies in 0..100 |
| Quiz.BlankAnswers | src/components/QuizComponent.tsx:42 | a fresh quiz has one answer slot per question, each set to -1 (unanswered) |
| Quiz.CorrectCount | src/components/QuizComponent.tsx:84-92 | the score never exceeds the number of questions |
| Quiz.CorrectCountIsMatches | src/components/QuizComponent.tsx:84-92 | the score is the number of positions whose selected answer equals the answer key |
| Quiz.BlankAnswersScoreZero | src/components/QuizComponent.tsx:42 | with valid answer keys, a quiz with nothing answered scores 0 |
| Quiz.ScoreAtMostAnswered | src/components/QuizComponent.tsx:84-92 | with valid answer keys, the score is at most the number of answered questions |
| Quiz.VerdictOf | src/components/QuizComponent.tsx:223-238 | "Skipped" for an unanswered slot; otherwise "Correct" when the answer equals the key and "Incorrect" when not |
| Quiz.VerdictAgreesWithScore | src/components/QuizComponent.tsx:223-238 | a question shows "Correct" exactly when it counts towards the score, and "Skipped" exactly when it is unanswered |
| Quiz.XpEarned | src/components/QuizComponent.tsx:98-105 | the whole reward from 90%, then the floor of 80%, 60% and 40% of it from 80%, 70% and 60%, and the floor of a fifth below that |
| Quiz.XpEarnedBounds | src/components/QuizComponent.tsx:98-105 | for a non-negative reward, the XP earned lies between 0 and the full reward |
| Quiz.XpEarnedMonotone | src/components/QuizComponent.tsx:98-105 | over a positive total and a non-negative reward, more correct answers never earn less XP |
| Quiz.XpEarnedExamples | src/components/QuizComponent.tsx:98-105 | 5/5 earns the full reward, 3/5 two fifths, 0/5 one fifth (floored) |
| Quiz.BadgeEarned | src/components/QuizComponent.tsx:107-114 | "Perfect Score" from 95%, "Excellent" from 90%, "Great Job" from 80%, "Good Work" from 70%, and no badge below |
| Quiz.BadgeDependsOnRatioOnly | src/components/QuizComponent.tsx:107-114 | two results with the same ratio over positive totals earn the same badge |
| Quiz.SameRatioSameBar | src/components/QuizComponent.tsx:94-96 | equal ratios over positive totals clear the same percentage bars |
| Quiz.PerfectLabelVersusFullMarks | src/components/QuizComponent.tsx:109 | for quizzes of fewer than 20 questions, the "Perfect Score" label is earned exactly with full marks |
| Quiz.PerfectLabelWithOneWrong | src/components/QuizComponent.tsx:109 | 19 right out of 20 still earns "Perfect Score" |
| Quiz.Headline | src/components/QuizComponent.tsx:193-195 | "Excellent Work!" from 90%, "Great Job!" from 70%, otherwise "Keep Practicing!" |
| Quiz.HeadlineAgreesWithBadge | src/components/QuizComponent.tsx:193-195 | "Keep Practicing!" shows exactly when no badge is earned, and "Excellent Work!" exactly with the "Perfect Score" or "Excellent" badge |
| Quiz.Tick | src/components/QuizComponent.tsx:47-54 | one timer step: one second less while started, above zero and not finished; finished once at zero; otherwise unchanged |
| Quiz.TickStep | src/components/QuizComponent.tsx:47-54 | a countdown step lowers the remaining time by at most one, only while started, unfinished and above zero, and never un-finishes the quiz |
| Quiz.CountdownFinishes | src/components/QuizComponent.tsx:47-54 | a started quiz with t seconds reaches 0 after t steps and is finished one step later |
| Quiz.IdleClockStays | src/components/QuizComponent.tsx:47-54 | a quiz that was not started never counts down |
| Quiz.Decimal | src/components/QuizComponent.tsx:59 | the minutes are printed as a non-empty string of decimal digits with no leading zero, as `String` prints them |
| Quiz.DecimalRoundTrip | src/components/QuizComponent.tsx:59 | reading back the printed minutes gives the number |
| Quiz.FormatTime | src/components/QuizComponent.tsx:56-60 | the whole minutes in decimal, a colon, and the remaining seconds padded to two digits |
| Quiz.FormatTimeRoundTrip | src/components/QuizComponent.tsx:56-60 | `m:ss` can be parsed back to the same number of seconds, so the display is injective |
| Quiz.ParseTime | src/components/QuizComponent.tsx:56-60 | reads back a display as seconds; it accepts only one or more digits, a colon and two digits of seconds below sixty, so any other character means None |
| Quiz.ParseTimeRejects | src/components/QuizComponent.tsx:56-60 | "x:05", "1:5x", "1:65" and ":05" are not displays |
| Quiz.FormatTimeExamples | src/components/QuizComponent.tsx:56-60 | 600 s shows "10:00", 65 s "1:05", 59 s "0:59" |
| Quiz.Session.constructor | src/components/QuizComponent.tsx:41-45 | a new session is on question 0, with every answer unanswered, not started, no results shown, and the time limit converted to seconds |
| Quiz.Session.Start | src/components/QuizComponent.tsx:161 | starting sets the started flag and changes nothing else |
| Quiz.Session.SelectAnswer | src/components/QuizComponent.tsx:62-66 | the current question's answer is replaced and every other answer is kept |
| Quiz.Session.Next | src/components/QuizComponent.tsx:68-72 | moves forward one question unless on the last one |
| Quiz.Session.Previous | src/components/QuizComponent.tsx:74-78 | moves back one question unless on the first one |
| Quiz.Session.Finish | src/components/QuizComponent.tsx:80-82 | shows the results and changes nothing else |
| Quiz.Session.Countdown | src/components/QuizComponent.tsx:47-54 | one timer step changes the clock exactly as the countdown rule says, and leaves the answers alone |
| Quiz.Session.CalculateScore | src/components/QuizComponent.tsx:84-92 | the loop's count is the score of the current answers |
| Quiz.Session.Outcome | src/components/QuizComponent.tsx:94-105 | reports the score and the tiered XP for it |
| Quiz.RunOutTheClock | src/components/QuizComponent.tsx:47-54 | a quiz left unanswered through a one-minute limit ends finished, with score 0 and a fifth of the reward |
| App.NewUser | src/App.tsx:49-56 | a new account: level 1, 0 XP, a threshold of 100 XP and no badges |
| App.ApplyXp | src/App.tsx:93-103 | adds the XP; when the sum reaches the threshold, one more level and a threshold raised by 100 times the new level |
| App.NewUserConsistent | src/App.tsx:47-77 | a new account starts at level 1 with 0 of 100 XP and no badges, which satisfies the profile invariant |
| App.ApplyXpConsistent | src/App.tsx:93-103 | an XP award keeps the invariant, adds exactly the award, keeps the name, e-mail and badges, raises the level by one exactly when the new XP reaches the threshold, and then raises the threshold by 100 times the new level |
| App.ApplyXpStaysBelowThreshold | src/App.tsx:93-103 | an award no larger than the next level's increment leaves the XP below the new threshold |
| App.ZeroAwardIsIdentity | src/App.tsx:93-103 | below the threshold, an award of 0 XP changes nothing |
| App.ZeroAwardAtThresholdLevelsUp | src/App.tsx:99-103 | at or past the threshold, even an award of 0 XP raises the level |
| App.LevelUpExamples | src/App.tsx:99-103 | a new user given 100 XP reaches level 2 with threshold 300; XP past the threshold is not carried into a second level-up |
| App.AwardBadges | src/App.tsx:105-114 | appends "Perfect Score" for a score of 5, then "First Steps" at level 1, each only when not yet held |
| App.CompleteQuiz | src/App.tsx:89-125 | the XP award followed by the badge awards, judged on the level before the award |
| App.SubmitAssignment | src/App.tsx:127-151 | the XP award of a flat 100 XP, with the badges untouched |
| App.CompleteQuizIsXpAward | src/App.tsx:89-125 | completing a quiz is the XP award plus the badge awards |
| App.AwardBadgesAppends | src/App.tsx:105-114 | badges are only appended, "Perfect Score" before "First Steps" |
| App.AwardBadgesMembership | src/App.tsx:105-114 | "Perfect Score" is held afterwards exactly when it was held or the score is 5; "First Steps" exactly when it was held or the level was 1 |
| App.AwardBadgesNoDuplicates | src/App.tsx:105-114 | badge awards never list a badge twice |
| App.CompleteQuizConsistent | src/App.tsx:89-125 | completing a quiz keeps the profile invariant |
| App.CompleteQuizBadgesIdempotent | src/App.tsx:105-114 | completing the same quiz score again awards no further badges |
| App.PerfectScoreIsLiteralFive | src/App.tsx:106 | a score of 5 earns "Perfect Score"; a score of 3 does not |
| App.SubmitAssignmentEffect | src/App.tsx:127-151 | a submission adds 100 XP, keeps the name, e-mail, badges and the invariant, levels up exactly when the threshold is reached, and then raises the threshold by 100 times the new level |
| App.FirstStepsOnlyAtLevelOne | src/App.tsx:111-114 | a profile past level 1 without "First Steps" never gets it from a quiz |
| App.AssignmentFirstSkipsFirstSteps | src/App.tsx:111-114 | a new account that submits an assignment first is at level 2, and its first quiz awards no badge unless it scores exactly 5 |
| App.CompleteFirstQuiz | src/App.tsx:111-114 | the quiz completion with "First Steps" awarded whenever it is not yet held, whatever the level |
| App.CompleteFirstQuizEarnsFirstSteps | src/App.tsx:111-114 | under that rule every quiz leaves "First Steps" in a consistent profile, and at level 1 it is the app's own rule |
| App.LocalPart | src/App.tsx:50 | the part of the e-mail before its first '@' (all of it when there is none) |
| App.DisplayName | src/App.tsx:50 | the e-mail's local part with its first character upper-cased |
| App.LocalPartUnique | src/App.tsx:50 | that part is the only prefix with no '@' that is followed by '@' or the end |
| App.DisplayNameShape | src/App.tsx:50 | the display name is the local part with its first letter upper-cased and the rest unchanged |
| App.DisplayNameExamples | src/App.tsx:50 | "demo@eduquest.com" gives "Demo", "ann@x@y" gives "Ann", "@host" gives "" |
| App.Render | src/App.tsx:154-208 | the sign-in page when nobody is signed in; otherwise the page the current screen names |
| App.RenderAuthExactly | src/App.tsx:154-208 | the sign-in page shows exactly when nobody is signed in or the screen is the sign-in screen; a chapter screen shows that chapter |
| App.EduQuest.constructor | src/App.tsx:27-28 | the app starts signed out on the sign-in screen |
| App.EduQuest.Login | src/App.tsx:47-61 | signs in a new level-1 user named after the e-mail and shows the dashboard |
| App.EduQuest.Signup | src/App.tsx:63-77 | signs in a new level-1 user with the given name and shows the dashboard |
| App.EduQuest.Logout | src/App.tsx:79-83 | signs out and shows the sign-in screen |
| App.EduQuest.SelectChapter | src/App.tsx:85-87 | shows the chosen chapter and keeps the user |
| App.EduQuest.ViewAssignments | src/App.tsx:171 | shows the assignments page and keeps the user |
| App.EduQuest.ViewReview | src/App.tsx:172 | shows the review page and keeps the user |
| App.EduQuest.BackToDashboard | src/App.tsx:180 | returns to the dashboard and keeps the user |
| App.EduQuest.QuizComplete | src/App.tsx:89-125 | a signed-in user becomes the completed-quiz profile and the level-up notice fires exactly when the threshold is reached; signed out, nothing changes |
| App.EduQuest.AssignmentSubmit | src/App.tsx:127-151 | the same for a 100 XP assignment submission |
| Assignments.Filter | src/components/AssignmentsPage.tsx:118-124 | the filtered list holds exactly the listed assignments that pass the test |
| Assignments.FilterAppend | src/components/AssignmentsPage.tsx:118-124 | filtering keeps the list's order |
| Assignments.ListedUnder | src/components/AssignmentsPage.tsx:118-124 | the "all" tab and any unknown tab list every assignment; a status tab lists its own status |
| Assignments.FilterByTab | src/components/AssignmentsPage.tsx:118-124 | the assignments listed under the active tab, in order |
| Assignments.AllTabKeepsEverything | src/components/AssignmentsPage.tsx:118-124 | the "all" tab, and any tab not named after a status, lists every assignment in order |
| Assignments.StatusTabKeepsThatStatus | src/components/AssignmentsPage.tsx:118-124 | a status tab lists exactly the assignments with that status |
| Assignments.CountStatus | src/components/AssignmentsPage.tsx:181-209 | the number of assignments with a given status |
| Assignments.CountsAddUp | src/components/AssignmentsPage.tsx:168-209 | the pending, submitted and graded counts add up to the total |
| Assignments.GradeColor | src/components/AssignmentsPage.tsx:111 | green for a truthy grade from 90, blue from 80, orange otherwise |
| Assignments.GradeColorTiers | src/components/AssignmentsPage.tsx:111 | a graded badge is green from 90, blue from 80 to 89, and orange otherwise, including a missing grade and a grade of 0 |
| Assignments.StatusBadgeOf | src/components/AssignmentsPage.tsx:104-116 | yellow "Pending", blue "Submitted", "Graded" in the grade's colour, nothing for other text |
| Assignments.StatusBadgeCases | src/components/AssignmentsPage.tsx:104-116 | each status gets its own badge, and any other status text gets none |
| Assignments.ShowsSubmit | src/components/AssignmentsPage.tsx:253 | the days-left line and the Submit button show only for a pending assignment |
| Assignments.SubmitOnlyUnderPendingTab | src/components/AssignmentsPage.tsx:253 | every card under the pending tab shows Submit; no card under the submitted or graded tabs does |
| Assignments.SampleCounts | src/components/AssignmentsPage.tsx:39-100 | the sample list counts 2 pending, 1 submitted and 1 graded; the graded 88 is blue |
| Review.ScoreColor | src/components/ReviewPage.tsx:174-180 | green from 90%, blue from 80%, yellow from 70%, red below |
| Review.BadgeTier | src/components/ReviewPage.tsx:387-390 | green from a ratio of 0.9, blue from 0.8, yellow from 0.7, red below |
| Review.ResultLabel | src/components/ReviewPage.tsx:393-395 | "Excellent" from a ratio of 0.9, "Great" from 0.8, "Good" from 0.7, "Needs Work" below |
| Review.TiersAgree | src/components/ReviewPage.tsx:174-180 | the score colour, the badge colour and the label always name the same band |
| Review.ScoreColorBands | src/components/ReviewPage.tsx:174-180 | over a positive total the bands are [90, ∞), [80, 90), [70, 80) and below 70 percent |
| Review.GreenDisplaysAtLeastNinety | src/components/ReviewPage.tsx:380-384 | a green score always displays at least 90% |
| Review.RoundingCrossesTheBand | src/components/ReviewPage.tsx:380-384 | 179 out of 200 displays 90% but is coloured blue |
| Review.ChapterCompletionPercent | src/components/ReviewPage.tsx:321 | chapter completion displays 0% with nothing done, 100% with everything done, and stays in between |
| Review.SampleFigures | src/components/ReviewPage.tsx:60-153 | the sample figures show 40%, 100% Excellent, 67% Needs Work, 90% Excellent and 88% Great |
| Dashboard.CompletedChapters | src/components/Dashboard.tsx:102 | the completed count is at most the number of chapters |
| Dashboard.CompletedChaptersCounts | src/components/Dashboard.tsx:102 | the completed count is the number of completed chapters in the list |
| Dashboard.SumFromIsSum | src/components/Dashboard.tsx:103-104 | a running total started at acc is acc plus the sum |
| Dashboard.TotalQuizzes | src/components/Dashboard.tsx:103 | the running total of the chapters' quiz counts, from 0 |
| Dashboard.TotalAssignments | src/components/Dashboard.tsx:104 | the running total of the chapters' assignment counts, from 0 |
| Dashboard.TotalQuizzesAdds | src/components/Dashboard.tsx:103 | the quiz total is additive over any split of the chapter list, and 0 for none |
| Dashboard.TotalAssignmentsAdds | src/components/Dashboard.tsx:104 | the assignment total is additive over any split of the chapter list, and 0 for none |
| Dashboard.ChapterClick | src/components/Dashboard.tsx:238 | a click reports the chapter's id when it is unlocked, and nothing otherwise |
| Dashboard.CardStateOf | src/components/Dashboard.tsx:243-256 | completed first, then unlocked, otherwise locked |
| Dashboard.ClickFollowsLock | src/components/Dashboard.tsx:238-256 | a card opens its chapter exactly when the chapter is unlocked; a card shown locked never opens |
| Dashboard.ShowsNoAchievements | src/components/Dashboard.tsx:215-217 | the empty-achievements message shows exactly when the user has no badges |
| Dashboard.FirstQuizEarnsAnAchievement | src/components/Dashboard.tsx:215-217 | a new account shows the empty-achievements message, and a quiz taken at level 1 removes it; it does not hold for a quiz taken later (see the next row) |
| Dashboard.MessageOutlivesFirstQuiz | src/components/Dashboard.tsx:215-217 | an account that submitted an assignment first still shows the message after its first quiz unless that quiz scores exactly 5 |
| Dashboard.FirstQuizClearsMessage | src/components/Dashboard.tsx:215-217 | with "First Steps" awarded on the first quiz whatever the level, any quiz clears the message |
| Dashboard.SampleTotals | src/components/Dashboard.tsx:48-104 | the sample chapters show 0 completed, 22 quizzes and 18 assignments, and only the first opens |
| Chapter.FirstMarker | src/components/ChapterContent.tsx:260 | finds the leftmost "**", with none before it, or reports that there is none |
| Chapter.SplitBold | src/components/ChapterContent.tsx:260 | splitting yields at least one piece and no piece contains "**" |
| Chapter.JoinSplitBold | src/components/ChapterContent.tsx:260 | joining the pieces with "**" gives the paragraph back |
| Chapter.SplitBoldCount | src/components/ChapterContent.tsx:260 | a paragraph splits into one more piece than the "**" markers it contains |
| Chapter.RenderParagraph | src/components/ChapterContent.tsx:260-262 | the pieces of the split, those at odd positions bold and the others plain |
| Chapter.RenderParagraphShape | src/components/ChapterContent.tsx:260-262 | pieces alternate plain and bold from a plain first one, and a paragraph with balanced markers ends plain |
| Chapter.RenderExample | src/components/ChapterContent.tsx:260-262 | "\*\*Verbs\*\* run" renders as "", bold "Verbs", " run" |
| Chapter.QuizButtonLabel | src/components/ChapterContent.tsx:298 | "Retake Quiz" for a completed quiz, "Start Quiz" otherwise |
| Chapter.RetakeNeverShown | src/components/ChapterContent.tsx:73-134 | every quiz card of the chapter page is marked not completed in the fixed chapter data, which completing a quiz does not update, so every button (line 298) reads "Start Quiz" and never "Retake Quiz" |
| Chapter.SubmitButton | src/components/ChapterContent.tsx:346-350 | disabled and reading "Submitted" for a completed assignment; enabled and reading "Submit Assignment" otherwise |
| Chapter.SubmitButtonIff | src/components/ChapterContent.tsx:346-350 | the submit button is disabled exactly for completed assignments, which is exactly when it reads "Submitted" |
| Chapter.SubmitIgnoresAdvertisedReward | src/components/ChapterContent.tsx:326 | a submission earns the flat 100 XP, so it never earns a different advertised reward |
| Chapter.ChapterView.constructor | src/components/ChapterContent.tsx:56 | the chapter page starts with no quiz selected |
| Chapter.ChapterView.SelectQuiz | src/components/ChapterContent.tsx:294 | opening a quiz selects it |
| Chapter.ChapterView.CompleteQuiz | src/components/ChapterContent.tsx:200-207 | a completed quiz is reported under the selected quiz's id, the app records it, and the chapter page returns |
| Chapter.ChapterView.BackFromQuiz | src/components/ChapterContent.tsx:208 | leaving a quiz early clears the selection and reports nothing |
| Chapter.ChapterView.ClickSubmit | src/components/ChapterContent.tsx:345-346 | an enabled submit button hands the assignment to the app; a disabled one changes nothing |

## Findings

| source | as written | input that shows it | evidently intended | confidence | as-written member | corrected member |
|---|---|---|---|---|---|---|
| src/App.tsx:111 | "First Steps" is awarded only to a quiz taken at level 1 | a new account submits an assignment (100 XP reaches the 100 XP threshold, so level 2), then completes a quiz scoring 3: no badge, and the "Complete your first quiz to earn achievements!" message stays | "First Steps" on the first quiz completed, as its description "Complete your first quiz" (src/components/ReviewPage.tsx:73-74) and the dashboard message (src/components/Dashboard.tsx:216) say | high on the input, medium on the intent; not executed | App.AssignmentFirstSkipsFirstSteps | App.CompleteFirstQuizEarnsFirstSteps |

`App.EduQuest.QuizComplete` keeps the rule as written, since it models the
code. The corrected rule `App.CompleteFirstQuiz` is used by
`Dashboard.FirstQuizClearsMessage`.

## Left out

- The sign-in form (src/components/AuthPage.tsx) is not part of this model. Its two callbacks are modelled as `Login` and `Signup`; the password is ignored, as in the app.
- Markup, styling, icons and progress-bar widths are left out because they are presentation only.
- Toast messages are left out because they are output only. The level-up notice is kept as the `leveledUp` result.
- React scheduling is left out: `useState`, `useEffect` and the one-second `setTimeout`. The countdown is modelled as the step rule `Tick`, applied by `Session.Countdown`.
- The demo user built in the app's start-up effect is left out because it is never used; the line that would sign it in is commented out.
- `formatDate` and `getDaysUntilDue` on the assignments page (src/components/AssignmentsPage.tsx:126-139), and `formatDate` on the review page (src/components/ReviewPage.tsx:166-172), are left out because they depend on the clock and the locale.
- Floating point is left out. Percentages and ratios are exact rationals. The visible difference is `Math.round` at an exact half, such as 23/40 shown as 57% by JavaScript and computed as 58 by `Common.RoundedPercent`.
- `toFixed(0)` on the quiz result's percentage (src/components/QuizComponent.tsx:200) and on the question-progress figure (src/components/QuizComponent.tsx:259, 285) is left out because it is display only. The result screen's pass/fail decisions are modelled on the exact ratio.
- App.DisplayName: only ASCII letters are upper-cased, because Unicode case mapping is not modelled.
- Quiz.FormatTime: takes non-negative seconds only. A negative remaining time arises from a negative time limit, or from a limit that is not a whole number of seconds: 0.01 minutes is 0.6 s, one tick later -0.4 s, which JavaScript shows as "-1:-0.4".
- Quiz.Session.constructor: the time limit is a whole number of minutes, so the remaining time is a whole number of seconds. A fractional limit such as 0.01 minutes steps from 0.6 s to -0.4 s, never equals 0, and so never finishes the quiz (src/components/QuizComponent.tsx:48-52). `Quiz.CountdownFinishes` and `Quiz.RunOutTheClock` hold only for whole-second times.
- Quiz.Session.constructor: requires at least one question. The question screen reads the current question, which an empty quiz does not have.
- Disabled buttons on the quiz screen are not modelled: "Previous" on the first question, and "Next" while the current question is unanswered. `Next` and `Previous` keep their own bounds checks, which the source also has.
- The chapter, quiz, assignment and review sample contents beyond the figures named above are left out, because they are static text.
