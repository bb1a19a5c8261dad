# Health app core, modelled in Dafny

This project models the rule-bearing core of a consumer health web app. Users take an eleven-question
health quiz, read derived metrics (BMI band, ideal weight, basal metabolic rate, water need), track daily
tasks and glasses of water on a dashboard, sign up, book doctor appointments, browse their quiz history,
and chat with an AI coach. Two API routes ask a language model for a risk analysis and clean, check and,
where needed, replace its reply. The model covers what those pieces compute and how they change state:

- `health_metrics.dfy`, `quiz.dfy`: the metrics calculator, the mapping from quiz answers to its
  inputs, and the quiz page as a class (`QuizSession`) whose methods move the question index, record
  answers, compute results and restart the quiz.
- `dashboard.dfy`: task progress, the toggle of a task, the water-glass counter coupled to the water
  task, and the weekday slot of the weekly activity chart, as a class (`DashboardState`) over a task
  sequence, counters and a seven-slot array.
- `signup.dfy`: the password-strength score (also as the step-by-step method of the page), its label,
  the first-failure-wins validation chain, the account-creation outcome and the Google name split.
- `health_ai_analysis.dfy`: the fenced-JSON extraction of the `/api/health-ai-analysis` route, its
  structure check, and the keyword-conditioned mock analysis it falls back to.
- `analyze_health.dfy`: the fence stripping, structure check and fixed fallback of `/api/analyze-health`.
- `ai_json.dfy`: the JSON values the routes produce and read, and the analysis object.
- `quiz_store.dfy`: normalisation of saved quiz answers and the two store updates (`saveQuizResults`,
  `updateQuizWithAIAnalysis`) on a store of two maps (user documents; per user, history records), with
  the invariant that every `latestQuiz` summary names and agrees with a history record.
- `appointments.dfy`: the doctor filter, the user's own appointments, and the booking flow as a class
  (`BookingPage`).
- `health_history.dfy`, `sidebar.dfy`, `agent.dfy`: the history page's default selection, risk colour
  and sorted answer panel; the avatar initials and active navigation item; the chat page's message list.
- `text.dfy`, `jsnum.dfy`, `seqs.dfy`, `wrappers.dfy`: the JavaScript string, number and array
  operations these rely on (`trim`, case mapping, `includes`, `split`/`join`, `replace(/lit/g, '')`,
  `Math.round`, `toFixed(1)`, `parseInt(s, 10)`, `String(n)`, `filter`), and `Option`.

JavaScript numbers are modelled as `Finite(real) | NaN`. Percentages `Math.round(c / t * 100)` of counts
are computed exactly as `(200c + t) / (2t)` in integers, and `JsNum.PercentIsRound` proves this equal to
the rounding of the real ratio. `JSON.parse`, `parseFloat` and `Number(...)` are function parameters.
Clocks and store-generated ids are parameters (`now`, `newId`). The signed-in user is given.

Some behaviour of the code that is easy to overlook, and that the model keeps:
- The `/api/health-ai-analysis` route checks three keys of the model's reply (`riskLevel`,
  `recommendations`, `healthInsights`) and never `riskScore`. Only `/api/analyze-health` checks four.
- `/api/analyze-health` never converts a string score to a number. The conversion sits after a check
  that already rejects a string score, so it can never run (`AnalyzeHealth.AcceptedScoreIsNumber`).
- The quiz reads a missing age as 30 and a missing gender as `"male"` (`Quiz.AgeDefault`,
  `Quiz.GenderDefault`). Without a height or a weight, no metrics are computed at all.
- When the history page loads an empty history, it keeps whatever was selected before rather than
  clearing the selection (`HealthHistory.SelectedAfterLoad`).

## Model

| member | source | states |
|---|---|---|
| HealthMetrics.CategoryOf | src/app/quiz/page.tsx:114-118 | Underweight iff BMI < 18.5, Healthy Weight iff 18.5 ≤ BMI < 25, Overweight iff 25 ≤ BMI < 30, Obese iff BMI ≥ 30: every BMI has exactly one band |
| HealthMetrics.CategoryMonotone | src/app/quiz/page.tsx:114-118 | a larger BMI never falls in a lighter band |
| HealthMetrics.CategoryNamesDistinct | src/app/quiz/page.tsx:114-118 | the four stored band labels are pairwise distinct |
| HealthMetrics.Bmi | src/app/quiz/page.tsx:108-111 | the BMI times the square of the height in metres is the weight; a positive weight has a positive BMI |
| HealthMetrics.IdealWeightRange | src/app/quiz/page.tsx:121-122 | the bounds are the weights at BMI 18.5 and 24.9 for the height, each rounded half up to whole kilograms; min ≤ max for every height |
| HealthMetrics.BaseBmr | src/app/quiz/page.tsx:126-130 | the Mifflin-St Jeor rate 10·weight + 6.25·height − 5·age, plus 5 for "male" and minus 161 for every other gender value |
| HealthMetrics.BaseBmrGenderGap | src/app/quiz/page.tsx:126-130 | every gender value other than "male" gets the same rate, 166 below the male rate |
| HealthMetrics.ActivityMultiplier | src/app/quiz/page.tsx:133-141 | the five table levels get their multipliers within 1.2 .. 1.9; a property name every object inherits (`toString`, `constructor`, `__proto__`, …) gives a non-number, modelled as NaN; any other level gets 1.2 |
| HealthMetrics.ActivityMultiplierOrdered | src/app/quiz/page.tsx:133-139 | the table strictly increases from sedentary through light, moderate and active to very_active |
| HealthMetrics.ActivityLevelFromDays | src/app/quiz/page.tsx:589-597 | "0-1" gives sedentary, "2-3" light, "6-7" active, anything else (including "4-5" and no answer) moderate; very_active is never produced |
| HealthMetrics.WaterNeeded | src/app/quiz/page.tsx:145 | the water need is a whole number of tenths of a litre; for a non-negative weight it is 0.033 × weight rounded to tenths, halves up |
| HealthMetrics.ScaledBmr | src/app/quiz/page.tsx:141-142 | NaN exactly when the age is NaN or the level is an inherited property name; otherwise an integer within one half of base rate × multiplier |
| HealthMetrics.Calculate | src/app/quiz/page.tsx:100-154 | the band is that of the unrounded BMI; the shown BMI is the BMI rounded to tenths; the ideal range, rate and water need are those of the functions above |
| HealthMetrics.WorkedExample | src/app/quiz/page.tsx:100-154 | 170 cm, 70 kg, age 30, male, moderate gives BMI 24.2, Healthy Weight, 53..72 kg, rate 2507 and 2.3 litres |
| Quiz.GenderAnswer | src/app/quiz/page.tsx:585-586 | the gender is the answer when there is one, and "male" when the answer is missing or empty |
| Quiz.ActivityAnswer | src/app/quiz/page.tsx:589-597 | "0-1" days gives sedentary, "2-3" light, "6-7" active; a missing, empty or other answer gives moderate |
| Quiz.Results | src/app/quiz/page.tsx:576-606 | metrics exist iff height and weight are both truthy numbers, and are then the calculator's metrics for the height, weight, age, gender and level read from the answers; the rate is NaN only when the age is |
| Quiz.AgeDefault | src/app/quiz/page.tsx:581-582 | a missing or empty age answer gives the same results as the answer "30" |
| Quiz.GenderDefault | src/app/quiz/page.tsx:585-586 | a missing or empty gender answer gives the same results as the answer "male" |
| Quiz.ActivityDefault | src/app/quiz/page.tsx:589-597 | a missing, empty or unknown days-per-week answer gives the same results as "4-5" |
| Quiz.DefaultResults | src/app/quiz/page.tsx:432-451 | the default answers (175 cm, 70 kg, "2-3" days) give metrics in the Healthy Weight band and the light level |
| Quiz.NoHeightNoResults | src/app/quiz/page.tsx:600-605 | without a height answer no metrics are computed |
| Quiz.RetakeLeavesNoResults | src/app/quiz/page.tsx:688-695 | after a retake empties the answers no metrics can be computed, and age, gender and level fall back to 30, "male", moderate |
| Quiz.QuizSession.constructor | src/app/quiz/page.tsx:430-451 | the quiz starts on the first question with the default answers and no results |
| Quiz.QuizSession.Progress | src/app/quiz/page.tsx:485-488 | the progress is in (0, 100] and is 100 exactly on the last question |
| Quiz.QuizSession.AnswerChange | src/app/quiz/page.tsx:498-502 | only the current question's answer is replaced; the question counts as answered iff the value is not "" |
| Quiz.QuizSession.NumericChange | src/app/quiz/page.tsx:505-519 | the value is stored verbatim, "" included, with no range check; nothing else changes |
| Quiz.QuizSession.CalculateResults | src/app/quiz/page.tsx:576-606 | metrics are replaced by the computed ones when height and weight allow it, and are left unchanged otherwise |
| Quiz.QuizSession.HandleNext | src/app/quiz/page.tsx:539-546 | before the last question the index advances by one; on the last question it stays, results are computed and shown |
| Quiz.QuizSession.Back | src/app/quiz/page.tsx:1105 | the index decreases by one when above 0 and stays at 0 otherwise |
| Quiz.QuizSession.RetakeQuiz | src/app/quiz/page.tsx:688-695 | back to index 0 with no answers, no results and results hidden |
| Dashboard.Completed | src/app/dashboard/page.tsx:332 | the completed tasks: each task marked completed occurs as often as in the list, and no other task occurs |
| Dashboard.Progress | src/app/dashboard/page.tsx:332-334 | for a non-empty list, `Math.round` of 100 × completed / total; within 0..100, 0 with nothing completed and 100 when all are completed; 0 for an empty list |
| Dashboard.ProgressExtremes | src/app/dashboard/page.tsx:199-203 | a non-empty list of completed tasks has progress 100; a list with none completed has 0 |
| Dashboard.FindById | src/app/dashboard/page.tsx:321 | the first task with the id, and None iff no task has it |
| Dashboard.FirstWaterTask | src/app/dashboard/page.tsx:425-428 | the first task whose lower-cased title contains "water" or "glass", and None iff there is none |
| Dashboard.ToggleById | src/app/dashboard/page.tsx:326-328 | same length and order; tasks with the id have `completed` flipped and nothing else changed; all others are untouched |
| Dashboard.ToggleTwice | src/app/dashboard/page.tsx:326-328 | toggling the same id twice restores the list |
| Dashboard.ToggleKeepsWaterTasks | src/app/dashboard/page.tsx:322-328 | toggling never changes which tasks are water tasks, nor whether one exists |
| Dashboard.DayIndex | src/app/dashboard/page.tsx:383-384 | the slot lies in 0..6 and is the Monday-first position of the weekday (Sunday last) |
| Dashboard.DayIndexInjective | src/app/dashboard/page.tsx:383-384 | different weekdays get different slots |
| Dashboard.NextGlasses | src/app/dashboard/page.tsx:409-412 | the counter moves one up or down, saturating at 8 and 0 |
| Dashboard.WaterPercent | src/app/dashboard/page.tsx:415 | `Math.round(glasses / 8 * 100)`; within 0..100, 100 iff 8 glasses and 0 iff none |
| Dashboard.DashboardState.constructor | src/app/dashboard/page.tsx:89-121 | loaded tasks with their progress, no glasses, 0% water, seven zero slots, empty title |
| Dashboard.DashboardState.ToggleTaskCompletion | src/app/dashboard/page.tsx:317-402 | tasks toggled and progress recomputed; a water task sets 8 glasses and 100% when completed, 0 and 0% when un-completed; a completion adds one streak day and one goal and writes the progress into today's slot only |
| Dashboard.DashboardState.UpdateWaterIntake | src/app/dashboard/page.tsx:405-449 | the saturated counter and its percentage, unless the first water task disagrees with "8 reached"; then that task is toggled, with the full effect of a toggle on tasks, progress, counter, streak, goals and today's slot |
| Dashboard.DashboardState.AddNewTask | src/app/dashboard/page.tsx:452-476 | a blank title changes nothing; otherwise exactly one incomplete task with the trimmed title is appended and the input cleared; counters and the week are unchanged |
| Dashboard.DecrementFromFullEmpties | src/app/dashboard/page.tsx:425-437 | taking a glass from a full counter while the water task is done un-completes the task, and the counter and percentage land on 0, not 7 |
| Signup.CriteriaMet | src/app/signup/page.tsx:74-80 | at most five criteria are met |
| Signup.Strength | src/app/signup/page.tsx:68-83 | the score is one of 0, 25, 50, 75, 100, and 0 for the empty password |
| Signup.CalculatePasswordStrength | src/app/signup/page.tsx:68-83 | the step-by-step score equals 25 per criterion met, capped at 100, and 0 for "" |
| Signup.StrengthZeroIffEmpty | src/app/signup/page.tsx:69-80 | the score is 0 exactly for the empty password |
| Signup.StrengthAppendMonotone | src/app/signup/page.tsx:74-80 | typing one more character never lowers the score |
| Signup.StrengthLabel | src/app/signup/page.tsx:106-112 | "" iff 0, Weak up to 25, Fair up to 50, Good up to 75, Strong above |
| Signup.StrengthGateBoundary | src/app/signup/page.tsx:136-139 | two criteria score 50 and pass the gate (label Fair); one criterion scores 25 and is refused (label Weak) |
| Signup.Failures | src/app/signup/page.tsx:126-144 | each of the four failures is listed iff its condition holds |
| Signup.Validate | src/app/signup/page.tsx:126-144 | the form is accepted iff all fields are filled, the passwords match, the strength is at least 50 and the terms are accepted; a refusal is one of the four messages |
| Signup.ValidateIsFirstFailure | src/app/signup/page.tsx:126-144 | the chain accepts iff nothing fails, and otherwise reports exactly the first failure in page order |
| Signup.AcceptedFormIsStrong | src/app/signup/page.tsx:126-144 | an accepted form has matching passwords, at least two criteria met and the terms accepted |
| Signup.ErrorMessage | src/app/signup/page.tsx:174-180 | the two known codes get their fixed messages; any other shows the service's message, or the default when it is empty |
| Signup.HandleSignup | src/app/signup/page.tsx:121-181 | a rejected form never reaches the service; an accepted one yields the user document built from the form, or the mapped error |
| Signup.GoogleNames | src/app/signup/page.tsx:200-202 | the first name never contains a space |
| Signup.GoogleNamesRoundTrip | src/app/signup/page.tsx:200-202 | first name, a space and last name give back the display name; a name without a space is the first name alone |
| HealthAiAnalysis.MatchAt | src/app/api/health-ai-analysis/route.ts:39 | at a fence, a match exists iff a `{` follows the fence, the optional "json" and white space, and some later `}` is followed by white space and a fence; the match ends at the first such `}` |
| HealthAiAnalysis.FirstMatch | src/app/api/health-ai-analysis/route.ts:40 | the leftmost position where the pattern matches; no earlier position matches |
| HealthAiAnalysis.TextToParse | src/app/api/health-ai-analysis/route.ts:39-45 | the object captured at the leftmost matching position, or the whole reply when no position matches (in particular when it has no fence) |
| HealthAiAnalysis.FencedObjectExtracted | src/app/api/health-ai-analysis/route.ts:39-45 | an object without backquotes wrapped in a ```` ```json ```` fence is extracted exactly |
| HealthAiAnalysis.HasRequiredParts | src/app/api/health-ai-analysis/route.ts:54 | only a JSON object holding riskLevel, recommendations and healthInsights can pass |
| HealthAiAnalysis.RiskLevel | src/app/api/health-ai-analysis/route.ts:85-86 | High iff obese or smoker; Moderate iff neither but overweight; Low otherwise |
| HealthAiAnalysis.RiskScore | src/app/api/health-ai-analysis/route.ts:87-88 | 75 iff obese, 55 iff overweight but not obese, 30 otherwise |
| HealthAiAnalysis.MockInsights | src/app/api/health-ai-analysis/route.ts:103-127 | each insight list has exactly three entries |
| HealthAiAnalysis.MockOf | src/app/api/health-ai-analysis/route.ts:84-129 | the mock has a level in {High, Moderate, Low} and three entries per insight list |
| HealthAiAnalysis.Mock | src/app/api/health-ai-analysis/route.ts:83-130 | each recommendation and each of the nine insights is the text chosen by whether its phrase occurs in the prompt |
| HealthAiAnalysis.MockRisk | src/app/api/health-ai-analysis/route.ts:85-88 | the level and score of the mock, each as an iff over the prompt's substrings |
| HealthAiAnalysis.MockDependsOnKeywords | src/app/api/health-ai-analysis/route.ts:83-130 | prompts with the same keyword tests get the same mock |
| HealthAiAnalysis.SmokerNotObese | src/app/api/health-ai-analysis/route.ts:85-88 | a smoker who is not obese is High risk with score 55 or 30, never 75 |
| HealthAiAnalysis.MockHasRequiredParts | src/app/api/health-ai-analysis/route.ts:54 | the mock passes the route's own structure check |
| HealthAiAnalysis.Fallback | src/app/api/health-ai-analysis/route.ts:60-79 | with a prompt, status 200 and the mock; without one, the mock throws and the route answers 500 |
| HealthAiAnalysis.HandlePrompt | src/app/api/health-ai-analysis/route.ts:15-72 | a failed call or missing content gives the fallback; a parsed reply with the three parts is returned, anything else gives the fallback; with a prompt the status is always 200 |
| HealthAiAnalysis.Handle | src/app/api/health-ai-analysis/route.ts:10-80 | an unreadable request is a 500 error; otherwise the prompt is handled |
| AiJson.Field | src/app/api/analyze-health/route.ts:96-99 | a field exists iff the value is an object holding the key, and is that entry |
| AiJson.ToJson | src/app/api/analyze-health/route.ts:114-140 | the analysis object has exactly the four keys, with the level, the score and two objects |
| AnalyzeHealth.Clean | src/app/api/analyze-health/route.ts:86-89 | the cleaned reply contains no ```` ``` ````, has no surrounding white space, and is the trimmed reply when the reply has no backquote |
| AnalyzeHealth.CleanNoFence | src/app/api/analyze-health/route.ts:86-89 | text without backquotes or surrounding white space is left unchanged |
| AnalyzeHealth.CleanFenced | src/app/api/analyze-health/route.ts:86-89 | a reply fenced by ```` ```json ```` and ```` ``` ```` on lines of their own is cleaned back to the text inside |
| AnalyzeHealth.AcceptedScoreIsNumber | src/app/api/analyze-health/route.ts:96-106 | an accepted result never has a string score, so the conversion at lines 104-106 is unreachable |
| AnalyzeHealth.Accepted | src/app/api/analyze-health/route.ts:96-101 | only a JSON object with riskLevel, recommendations, healthInsights and a numeric riskScore can pass |
| AnalyzeHealth.FallbackAnalysis | src/app/api/analyze-health/route.ts:114-140 | the fallback is Moderate with score 65 and three entries per insight list |
| AnalyzeHealth.FallbackAccepted | src/app/api/analyze-health/route.ts:96-101 | the fallback passes the route's own structure check |
| AnalyzeHealth.ServerError | src/app/api/analyze-health/route.ts:142-147 | a failure outside parsing is answered with status 500 |
| AnalyzeHealth.ReplyText | src/app/api/analyze-health/route.ts:80 | null or empty content becomes "{}"; other content is kept |
| AnalyzeHealth.Handle | src/app/api/analyze-health/route.ts:50-149 | request and model failures give 500 with the message; a reply gives 200 with the parsed result if accepted and the fallback otherwise; every 200 body passes the check |
| AnalyzeHealth.EmptyReplyGivesFallback | src/app/api/analyze-health/route.ts:80 | empty or null content parses as `{}`, fails the check and yields the fallback |
| QuizStore.OrDefault | src/lib/quizUtils.ts:65 | `x \|\| fallback`: a truthy stored value is kept, otherwise the fallback; the result is truthy |
| QuizStore.RiskLevel | src/lib/quizUtils.ts:65 | a truthy stored level is kept; a missing or falsy one becomes "Low" |
| QuizStore.RiskScore | src/lib/quizUtils.ts:66-68 | a number is kept, a string is read by parseInt, a boolean or missing score is 0 |
| QuizStore.RiskScoreFromText | src/lib/quizUtils.ts:66-68 | a score saved as the decimal text of an integer is read back as that integer |
| QuizStore.Truncate | src/lib/quizUtils.ts:77 | the integer part of a number, truncated toward zero |
| QuizStore.FloatField | src/lib/quizUtils.ts:74 | a falsy or missing field is 0; a number is kept; a non-empty string is read by parseFloat |
| QuizStore.IntField | src/lib/quizUtils.ts:77-80 | a falsy or missing field is 0; a number is truncated; a non-empty string is read by parseInt |
| QuizStore.IntFieldFromText | src/lib/quizUtils.ts:77-80 | a whole number saved as its decimal text is read back unchanged |
| QuizStore.Metrics | src/lib/quizUtils.ts:73-82 | each metric is read by its field reader with its default (0, or "Unknown" for the band); empty answers give 0 for every metric and "Unknown" |
| QuizStore.Record | src/lib/quizUtils.ts:88-95 | the record keeps the answers and the save time, has no analysis, stores the normalised level, score and metrics, and has `aiAnalyzed` iff the answer is exactly `true` |
| QuizStore.EmptyAnswersDefaults | src/lib/quizUtils.ts:65-85 | saving empty answers stores "Low", score 0, "Unknown", rate 0 and no analysis flag |
| QuizStore.SavedUser | src/lib/quizUtils.ts:106-120 | the merged user document summarises the new record under its id, stores its metrics and keeps every other field |
| QuizStore.AnalysedRecord | src/lib/quizUtils.ts:201-206 | the record gains the analysis, the flag, the new level and score, and keeps everything else |
| QuizStore.AnalysedUser | src/lib/quizUtils.ts:212-222 | the summary changes only when its id is the analysed record's id; other fields never change |
| QuizStore.SavePreservesConsistency | src/lib/quizUtils.ts:98-120 | after a save every summary still names and agrees with a history record |
| QuizStore.UpdatePreservesConsistency | src/lib/quizUtils.ts:201-222 | after an analysis every summary still names and agrees with a history record |
| QuizStore.AnalysisAfterSave | src/lib/quizUtils.ts:214 | an analysis of the record just saved reaches the summary; one of any other record leaves it as saved |
| QuizStore.Store.SaveQuizResults | src/lib/quizUtils.ts:54-128 | an empty user id returns nothing and writes nothing; otherwise one record is added under the fresh id, the user document is merged, and level, score and id are returned |
| QuizStore.Store.UpdateQuizWithAIAnalysis | src/lib/quizUtils.ts:182-230 | true iff both ids are non-empty and the record exists; false writes nothing; true updates the record and, only on an id match, the summary |
| Appointments.FilterDoctors | src/app/appointments/page.tsx:176-198 | a doctor is shown iff it is in the list and passes the search test (case-insensitive, name or specialty) and the exact specialty test, each when switched on |
| Appointments.FilterDoctorsIsOneFilter | src/app/appointments/page.tsx:179-197 | the two filters are one filter; the result keeps the list's order; with both filters off the list is unchanged |
| Appointments.OwnAppointments | src/app/appointments/page.tsx:158-163 | exactly the appointments whose user id is the signed-in user's |
| Appointments.OwnAppointmentsCounts | src/app/appointments/page.tsx:158-163 | each of the user's appointments is listed as often as it is stored, and no other appointment is listed |
| Appointments.OwnAppointmentsAppend | src/app/appointments/page.tsx:222-225 | a new appointment of the user is added once to their list, whose other entries stay the same; another user's leaves the list as it was |
| Appointments.NewAppointment | src/app/appointments/page.tsx:210-220 | the record has the user, the doctor's id and name, the date and time, status "scheduled" and type "<specialty> Consultation" |
| Appointments.BookingPage.constructor | src/app/appointments/page.tsx:158-163 | booking starts on step 1 with nothing selected, and the list shows the user's own appointments |
| Appointments.BookingPage.SelectDoctor | src/app/appointments/page.tsx:628 | the doctor is selected and nothing else changes |
| Appointments.BookingPage.ChooseDate | src/app/appointments/page.tsx:360 | the date is set and nothing else changes |
| Appointments.BookingPage.ChooseTime | src/app/appointments/page.tsx:393 | the time is set and nothing else changes |
| Appointments.BookingPage.NextFromDate | src/app/appointments/page.tsx:368 | step 1 goes to 2 only when a date is set |
| Appointments.BookingPage.NextFromTime | src/app/appointments/page.tsx:402 | step 2 goes to 3 only when a time is set |
| Appointments.BookingPage.BackOrCancel | src/app/appointments/page.tsx:326-330 | above step 1 the step goes back by one; on step 1 the doctor is deselected; the step stays in 1..3 |
| Appointments.BookingPage.BookAppointment | src/app/appointments/page.tsx:201-242 | without user, doctor, date and time nothing happens; otherwise exactly one record is stored, the user's list is re-read and holds the new record once more than before and nothing else new, and success is shown |
| Appointments.BookingPage.ResetAfterBooking | src/app/appointments/page.tsx:229-235 | success is hidden and the flow is back at step 1 with nothing selected |
| Appointments.BookingPage.BackToAppointments | src/app/appointments/page.tsx:309-314 | the selection is cleared and the step reset, while the success flag is left as it is |
| HealthHistory.SelectedAfterLoad | src/app/health-history/page.tsx:44-46 | a non-empty history selects its first record; an empty one keeps the previous selection |
| HealthHistory.RiskLevelColor | src/app/health-history/page.tsx:67-76 | green, yellow and red iff the lower-cased level is low, moderate or high; gray for a missing level and anything else |
| HealthHistory.ToLowerIdempotent | src/app/health-history/page.tsx:70 | lower-casing twice is lower-casing once |
| HealthHistory.RiskLevelColorIgnoresCase | src/app/health-history/page.tsx:67-76 | the colour does not depend on letter case, and Low, Moderate and HIGH get their colours |
| HealthHistory.SortByKey | src/app/health-history/page.tsx:351 | the entries in ascending numeric key order, each kept as often as it occurs |
| HealthHistory.Responses | src/app/health-history/page.tsx:349-351 | the listed entries are sorted and are, as a multiset, the numerically keyed ones |
| HealthHistory.ResponsesAreTheNumericEntries | src/app/health-history/page.tsx:350 | an entry is listed iff it is in the answers and its key converts to a number |
| Sidebar.FirstOrUndefined | src/components/Sidebar.tsx:155 | `s[0]` in a template is the first character, or the text "undefined" for an empty part |
| Sidebar.Initials | src/components/Sidebar.tsx:149-162 | "U" without a user or an e-mail; a name without a space gives its first letter; no name gives the e-mail's first letter; upper-cased |
| Sidebar.TrailingSpaceInitials | src/components/Sidebar.tsx:152-156 | a display name ending in a space gives its first letter followed by "UNDEFINED" |
| Sidebar.AnnInitials | src/components/Sidebar.tsx:152-156 | the display name "Ann " gets the initials "AUNDEFINED" |
| Sidebar.Words | src/components/Sidebar.tsx:153 | a word is listed iff it is a non-empty part of the name split at spaces; no word is empty or contains a space |
| Sidebar.InitialsCorrected | src/components/Sidebar.tsx:149-162 | the corrected initials have one or two characters, and "U" without a user or an e-mail; with CorrectedTrailingSpace, a stray trailing space no longer adds a second initial |
| Sidebar.CorrectedTrailingSpace | src/components/Sidebar.tsx:152-157 | a word followed by a space gets the corrected initials of the word alone, its first letter upper-cased |
| Sidebar.AnnCorrected | src/components/Sidebar.tsx:152-157 | the display name "Ann " gets the corrected initials "A" |
| Sidebar.InitialsOfWellSpaced | src/components/Sidebar.tsx:152-157 | for a name without stray spaces, the first letters of its first and last parts, or of the name when it has one part |
| Sidebar.InitialsAgreeOnWellSpacedNames | src/components/Sidebar.tsx:152-157 | on names without leading, trailing or doubled spaces, the written and the corrected initials agree |
| Sidebar.Highlighted | src/components/Sidebar.tsx:181 | an item is active iff its path equals the current one exactly |
| Sidebar.AtMostOneHighlighted | src/components/Sidebar.tsx:120-146 | at most one item is active, and the health-history page activates none |
| Agent.GeneratedId | src/app/agent/page.tsx:190 | a message without an id gets "vercel-msg-" followed by its index |
| Agent.GeneratedIdsDistinct | src/app/agent/page.tsx:189-190 | different positions get different generated ids |
| Agent.GeneratedIdIsNotWelcome | src/app/agent/page.tsx:198 | a generated id is never the welcome id |
| Agent.Mapped | src/app/agent/page.tsx:189-194 | each library message keeps role and content, and its id or a generated one |
| Agent.Combine | src/app/agent/page.tsx:187-207 | the shown list contains the welcome id; it is the mapped list when that has it, and the welcome message put in front otherwise |
| Agent.CombinePrependsWelcome | src/app/agent/page.tsx:196-204 | the welcome is put in front iff no library message has its id, and the library messages follow in order |
| Agent.WithFeedback | src/app/agent/page.tsx:240-243 | feedback is set on the messages with the id; order and every other field are kept |
| Agent.WithFeedbackProperties | src/app/agent/page.tsx:241-243 | an unknown id changes nothing; repeating feedback is idempotent; the latest feedback wins |
| Agent.Submit | src/app/agent/page.tsx:221-238 | blank input is not sent; other input is appended untrimmed as a user message and the box is cleared |
| Agent.BlankInputNeverSent | src/app/agent/page.tsx:223 | the list is unchanged iff the input is all white space |
| Agent.Rendered | src/app/agent/page.tsx:418 | exactly the non-system messages are rendered |
| Agent.RenderedConversation | src/app/agent/page.tsx:418 | the welcome message is never rendered, and a sent message appears last |
| Text.Trim | src/app/agent/page.tsx:223 | `trim`: the piece at the first non-space character, with only white space before and after it and none at its ends |
| Text.TrimEmptyIffBlank | src/app/dashboard/page.tsx:453 | a string trims to "" iff it is all white space |
| Text.TrimSurrounded | src/app/api/analyze-health/route.ts:89 | white space around a trimmed text is removed exactly |
| Text.ToLower | src/app/health-history/page.tsx:70 | `toLowerCase` maps A-Z to a-z and keeps every other character |
| Text.Contains | src/app/api/health-ai-analysis/route.ts:85 | `includes` holds iff the text occurs at some position |
| Text.Split | src/components/Sidebar.tsx:153 | `split(' ')` gives at least one part, none containing the separator |
| Text.JoinSplit | src/app/signup/page.tsx:202 | joining the parts of a split with the same separator gives the string back |
| Text.SplitFirst | src/app/signup/page.tsx:200-202 | the first part is the text before the first separator, and the rest re-joins to the text after it |
| Text.RemoveAllAbsent | src/app/api/analyze-health/route.ts:87-88 | deleting a pattern that does not occur changes nothing |
| JsNum.Round | src/app/quiz/page.tsx:142 | `Math.round` is the integer within one half below and strictly less than one half above |
| JsNum.Percent | src/app/dashboard/page.tsx:334 | the integer percentage is within 0..100 for c ≤ t, is 0 for none and 100 for all |
| JsNum.PercentIsRound | src/app/dashboard/page.tsx:334 | the integer formula equals `Math.round(c / t * 100)` |
| JsNum.PercentMonotone | src/app/dashboard/page.tsx:332-334 | more completed tasks never give a smaller percentage |
| JsNum.ToFixed1 | src/app/quiz/page.tsx:145 | `parseFloat(x.toFixed(1))`: a whole number of tenths, the nearest one to x, with halves rounded away from zero |
| JsNum.Decimal | src/app/agent/page.tsx:226 | the decimal text of a number is non-empty and all digits |
| JsNum.DecimalValue | src/app/agent/page.tsx:190 | reading the decimal text back gives the number |
| JsNum.ParseIntRoundTrip | src/lib/quizUtils.ts:68 | `parseInt(String(i), 10)` is i for every integer |
| JsNum.ParseInt | src/lib/quizUtils.ts:68 | `parseInt(s, 10)` is NaN or an integer, and NaN for a text without digits |
| Seqs.Filter | src/app/appointments/page.tsx:184-194 | `filter` keeps exactly the elements that pass the test |
| Seqs.FilterCounts | src/app/appointments/page.tsx:184-194 | each element that passes the test is kept exactly as often as it occurs, and no other element is kept |
| Seqs.FilterIsSubsequence | src/app/appointments/page.tsx:179-197 | filtering keeps the list's order |
| Seqs.FilterFilter | src/app/appointments/page.tsx:182-195 | two successive filters are one filter by both tests |
| Seqs.FilterAppend | src/app/agent/page.tsx:418 | filtering a list with one more element at the end keeps or drops only that element |

## Left out

- The Firestore and Firebase Auth calls are not modelled as I/O. Reads and writes are updates of maps and sequences, and every write succeeds. The `catch` branches for a failed write (console logging, error banners, `null`/`false` returns after an exception) are not modelled.
- In `toggleTaskCompletion`, the streak, goal count and weekly slot change only after a database write that succeeds. The model changes them unconditionally, because writes always succeed in it.
- The calls to the language model are not modelled. The routes receive the model's reply (or its failure) as a parameter. The prompt texts and `JSON.stringify` of the request are not modelled.
- `JSON.parse`, `parseFloat` and `Number(...)` are function parameters, so their behaviour on particular strings is not modelled. `parseInt(s, 10)` is modelled concretely.
- Numbers are exact reals. Binary floating-point error in the BMI, the rate and the water need is not modelled. This also covers `toFixed(1)` on values that do not round-trip exactly.
- Infinities are not modelled. `Number("Infinity")` is a number to the history page's filter, but here only finite values and NaN exist.
- `toLowerCase`/`toUpperCase` are modelled for ASCII letters only.
- Quiz.AgeAnswer: reads the age with `parseInt(s, 10)`, while the page calls `parseInt` without a radix (src/app/quiz/page.tsx:582). Without a radix, a text starting with "0x" or "0X" is read in base 16, so "0x1E" is age 30 in the page and age 0 here. The number input of the page does not produce such text, but the model stores any answer text verbatim.
- Strings are sequences of Unicode code points, whereas JavaScript's `length` and `[i]` count UTF-16 code units. A password of four emoji is eight code units long and passes the page's length criterion (src/app/signup/page.tsx:74), but has length 4 here. The first "character" of an emoji name is a lone surrogate in the browser (src/components/Sidebar.tsx:155-161), and the whole emoji here.
- The order of a user's appointments is not modelled. The page re-reads them with a query that has no ordering (src/app/appointments/page.tsx:149-163), which the store answers in document-id order, and new ids are random. The model keeps the stored appointments in booking order, so `Appointments.OwnAppointmentsAppend` and `Appointments.BookingPage.BookAppointment` state only which appointments are listed and how often, not where the new one appears.
- `QuizStore.Truncate`: models `parseInt(x.toString(), 10)` only for numbers written in plain decimal notation. For numbers `toString` renders in exponent form, the source's result differs.
- `QuizStore.FloatField`, `QuizStore.IntField`: do not state what a stored boolean reads as (`parseFloat("true")`, which is NaN), though the functions compute it.
- `HealthHistory.SortByKey`: does not state that entries with equal keys keep their relative order, which JavaScript's stable sort guarantees.
- `Appointments.FilterDoctors`: the effect returns early when the doctor list is empty and leaves the previous filtered list in place. The model filters the empty list to an empty result.
- Store-generated ids are taken as fresh, a precondition of `QuizStore.Store.SaveQuizResults`. Appointment ids are not checked for uniqueness.
- The quiz page's `handleSubmit`/`sendToAI` orchestration, its loading and error flags, and its animations are not modelled. Nor are the other reads of `quizUtils.ts` (`getQuizHistory`, `getLatestQuizResult`).
- The dashboard's loading of the user document (`fetchUserData`, `safeParseFloat`) is not modelled, except the initial progress. The dashboard's own risk colours and advice are not modelled either.
- On the chat page, `handleRetry`, the chat library's internals, its submit call, message timestamps and the `showWelcome` flag are not modelled.
- On the signup page, `updateProfile`, the Google pop-up and the timestamps and photo URL of the user document are not modelled.
- The booking flow's `loading` flag and error messages are not modelled. The 3-second timer is a separate method, `ResetAfterBooking`.
- In `/api/health-ai-analysis`, the request's `systemPrompt` is passed to the model unchanged; only `userPrompt` is modelled.
- The sidebar's sign-out and mobile menu are not modelled.

## Findings

| source | as written | input that shows it | evidently intended | confidence | as-written member | corrected member |
|---|---|---|---|---|---|---|
| src/components/Sidebar.tsx:152-156 | the initials take `names[0][0]` and `names[names.length - 1][0]` of `displayName.split(' ')`, so an empty part interpolates as the text "undefined" | a user with an e-mail and display name "Ann " (trailing space) gets the avatar text "AUNDEFINED"; a leading space, or more than one trailing space, does the same | one or two initials from the first and last non-empty words | not executed | Sidebar.AnnInitials | Sidebar.InitialsCorrected |
