# Academic dashboard: grade, progress and calendar rules, and the ownership-checked route handlers

This Dafny project models the logic of a personal academic dashboard, a Next.js application. It has two halves.

The first half is the client pages. That covers:

- the grades page: letter grade, grade colour, statistics and ungraded assignments;
- the goals and assignments pages: filters, summary counts and completion toggles;
- the courses page and the course-progress card: progress, credits and pending totals;
- the calendar: day lists, "+n more" cells, the upcoming-deadline list and month navigation;
- the add-grade dialog: the percentage preview, the checks before submitting, the letter choice and the form reset.

The second half is the API route handlers over the database. Each one:

1. checks the session;
2. validates the request body with its zod schema, reporting the first failing field's message;
3. checks that the referenced record belongs to the session user, answering 404 otherwise;
4. then creates, updates or lists records.

The routes covered are grades, assignments, goals, events, registration and dashboard statistics.

Layout:

- Each core source file is one module.
- `Common` holds Option/Result/Reply, `Filter`, `FindFirst` and sorting, sums and means, and `Math.round`.
- `NumberText` models `parseFloat`, `parseInt` and `toString`.
- `Dates` is the civil calendar behind `new Date(y, m, d)` (including its reading of a year 0-99 as 1900-1999) and `setMonth`.
- `Entities` holds the records.
- `Validation` holds zod's field checks and messages.
- `Store` is the database, as a class whose tables are sequences with unique ids (and unique e-mails among users).

How the parts are modelled:

- Pure page helpers are functions with lemmas.
- Page state (the goal list, the assignment list, the calendar's dates, the dialog's form) is a class whose methods change it.
- Route handlers are methods on the `Database` that state every outcome and the new table.
- The statistics handler only reads, so it is a function.
- Timestamps are milliseconds as `int`, and percentages are `real`.

## Model

| member | source | states |
|---|---|---|
| GradesPage.LetterGrade | app/dashboard/grades/page.tsx:66-72 | A exactly for at least 90, B for [80, 90), C for [70, 80), D for [60, 70), F below 60; every lower bound inclusive |
| GradesPage.LetterGradeMonotone | app/dashboard/grades/page.tsx:66-72 | a higher percentage never yields a worse letter |
| GradesPage.GradeColor | app/dashboard/grades/page.tsx:74-80 | `getGradeColor`: the colour the letter table gives the percentage's letter |
| GradesPage.GradeColorMatchesLetter | app/dashboard/grades/page.tsx:74-80 | the colour is the colour of the percentage's letter, and two percentages share a colour exactly when they share a letter |
| GradesPage.Percentages | app/dashboard/grades/page.tsx:92 | one percentage per grade, in list order |
| GradesPage.MaxOf | app/dashboard/grades/page.tsx:97 | the maximum is one of the values and bounds them all from above |
| GradesPage.MinOf | app/dashboard/grades/page.tsx:98 | the minimum is one of the values and bounds them all from below |
| GradesPage.MeanBetween | app/dashboard/grades/page.tsx:92-98 | lowest <= unrounded mean <= highest |
| GradesPage.CalculateStats | app/dashboard/grades/page.tsx:82-101 | nothing graded: all four numbers 0; otherwise total = number of grades, average = mean rounded to one decimal, highest and lowest are percentages of the list and bound every grade |
| GradesPage.StatsAverageBetween | app/dashboard/grades/page.tsx:92-99 | the unrounded mean lies between lowest and highest, and the shown average within 0.05 of that range |
| GradesPage.UngradedAssignments | app/dashboard/grades/page.tsx:106-108 | exactly the assignments no grade refers to, in original order |
| GoalsPage.FilterGoals | app/dashboard/goals/page.tsx:49-53 | "active" keeps exactly the open goals, "completed" exactly the completed ones, anything else all of them; order kept |
| GoalsPage.GetGoalStats | app/dashboard/goals/page.tsx:112-119 | total = number of goals, active and completed = sizes of the "active" and "completed" views, high priority = high-priority goals of the "active" view |
| GoalsPage.GoalStatsConsistent | app/dashboard/goals/page.tsx:112-119 | active + completed = total, and high priority <= active |
| GoalsPage.GoalStatsMatchFilter | app/dashboard/goals/page.tsx:112-119 | the active and completed counts are the lengths of the "active" and "completed" views |
| GoalsPage.ToggleInList | app/dashboard/goals/page.tsx:99-104 | the toggled list has the same length |
| GoalsPage.ToggleInListEffect | app/dashboard/goals/page.tsx:99-104 | the matching goal's flag flips: completing sets progress to 100, reopening keeps it; its other fields and every other goal are unchanged |
| GoalsPage.ToggleUnknownId | app/dashboard/goals/page.tsx:99-104 | an id no goal has leaves the list as it was |
| GoalsPage.ToggleTwiceFlags | app/dashboard/goals/page.tsx:99-104 | toggling twice restores every completion flag |
| GoalsPage.GoalsView.ToggleComplete | app/dashboard/goals/page.tsx:82-109 | an unknown id sends nothing; otherwise sends the flipped flag with progress 100 on completion (else the old progress); the list changes, to the toggled list, only on an ok answer |
| AssignmentsPage.FilterAssignments | app/dashboard/assignments/page.tsx:60-64 | "pending" keeps exactly the open assignments, "completed" exactly the completed ones, anything else all; order kept |
| AssignmentsPage.StatusOf | app/dashboard/assignments/page.tsx:85-98 | done iff completed; overdue iff open and due before now; otherwise open |
| AssignmentsPage.Summarize | app/dashboard/assignments/page.tsx:184-213 | total = number of assignments, pending and completed = sizes of the "pending" and "completed" views |
| AssignmentsPage.SummaryConsistent | app/dashboard/assignments/page.tsx:184-213 | pending + completed = total, overdue <= pending, and overdue counts exactly the assignments shown with the overdue icon |
| AssignmentsPage.ToggleInList | app/dashboard/assignments/page.tsx:117-123 | the toggled list has the same length |
| AssignmentsPage.ToggleInListEffect | app/dashboard/assignments/page.tsx:117-123 | only `completed` of the matching assignment changes, and it flips |
| AssignmentsPage.ToggleTwice | app/dashboard/assignments/page.tsx:117-123 | toggling the same id twice gives back the list |
| AssignmentsPage.ToggleMovesOne | app/dashboard/assignments/page.tsx:117-123 | with unique ids, completing an open assignment raises the completed count by exactly one |
| AssignmentsPage.AssignmentsView.ToggleComplete | app/dashboard/assignments/page.tsx:101-128 | an unknown id sends nothing; otherwise sends the flipped flag; the list becomes the toggled list only on an ok answer |
| CoursesPage.CalculateProgress | app/dashboard/courses/page.tsx:54-59 | progress in [0, 100]; 0 without assignments; 100 exactly when every assignment is completed |
| CoursesPage.Percent | app/dashboard/courses/page.tsx:57 | k of n as a percentage in [0, 100], 100 exactly when k = n |
| CoursesPage.TotalCredits | app/dashboard/courses/page.tsx:167 | the summed credits, never negative when no course has negative credits |
| CoursesPage.ProgressFullIff | app/dashboard/courses/page.tsx:54-59 | progress is 100 exactly when the course has assignments and all are completed |
| CoursesPage.CompletedPlusUpcoming | app/dashboard/courses/page.tsx:54-63 | completed + not completed = number of assignments of the course |
| CoursesPage.TotalCreditsAppend | app/dashboard/courses/page.tsx:167 | the credit total of two lists is the sum of their totals |
| CoursesPage.TotalCreditsBounds | app/dashboard/courses/page.tsx:167 | with non-negative credits, every course's credits are at most the total |
| CoursesPage.TotalCreditsNonNegative | app/dashboard/courses/page.tsx:167 | non-negative credits give a non-negative total |
| CoursesPage.Progresses | app/dashboard/courses/page.tsx:181-184 | one progress per course, in order |
| CoursesPage.AverageProgress | app/dashboard/courses/page.tsx:179-186 | 0 without courses, always in [0, 100] |
| CoursesPage.AverageProgressIsMean | app/dashboard/courses/page.tsx:179-186 | with courses, the average is the sum of the per-course progress values divided by the number of courses |
| CoursesPage.AverageFullIff | app/dashboard/courses/page.tsx:179-186 | the average is 100 exactly when there are courses and every one is at 100 |
| CoursesPage.TotalPending | app/dashboard/courses/page.tsx:199 | the summed per-course pending counts equal the number of incomplete assignments over all courses |
| CoursesPage.TotalPendingCountsIncomplete | app/dashboard/courses/page.tsx:199 | the pending total is the number of open assignments over all courses, at most all of their assignments |
| CourseProgress.CalculateProgress | components/dashboard/course-progress.tsx:12-16 | 0 when the relation is absent or empty, always in [0, 100] |
| CourseProgress.AgreesWithCoursesPage | components/dashboard/course-progress.tsx:12-16 | the card's progress equals the courses page's progress for every course |
| CourseProgress.Caption | components/dashboard/course-progress.tsx:43 | the "done/total" caption: done <= total, total = number of assignments (0 when absent) |
| CourseProgress.CaptionMatchesProgress | components/dashboard/course-progress.tsx:12-16 | the bar's percentage is exactly done / total * 100 of the caption |
| CalendarPage.AssignmentsForDate | app/dashboard/calendar/page.tsx:52-56 | exactly the assignments due on that calendar day, in list order |
| CalendarPage.DueOnInstant | app/dashboard/calendar/page.tsx:52-56 | an assignment due at any instant of a day is listed under that day and under no other |
| CalendarPage.SelectedDateAssignments | app/dashboard/calendar/page.tsx:70-73 | no selection: empty; otherwise the selected day's assignments |
| CalendarPage.DayCellFor | app/dashboard/calendar/page.tsx:176-190 | shows the first min(2, n) of the day's n assignments; the "+k more" note appears exactly when n > 2, with k = n - 2 |
| CalendarPage.SortedUpcoming | app/dashboard/calendar/page.tsx:259-261 | the open, not-yet-due assignments, sorted by due date, a permutation of the candidates |
| CalendarPage.UpcomingDeadlines | app/dashboard/calendar/page.tsx:259-262 | min(5, candidates) items, all open and not yet due, sorted; a prefix of the sorted candidates, so nothing left out is due earlier than anything shown |
| CalendarPage.NoUpcomingNoteIff | app/dashboard/calendar/page.tsx:277-281 | "No upcoming deadlines" appears exactly when every assignment is completed or past due, and exactly when the list is empty |
| CalendarPage.NavigateMonthAsWritten | app/dashboard/calendar/page.tsx:58-68 | as written: a valid date on the same day one month back or forward, or on an earlier day of the month after that when the day overflows |
| CalendarPage.NavigateMonthSkipsMonth | app/dashboard/calendar/page.tsx:58-68 | from 31 January 2025 "next" shows 3 March 2025, two months on; "prev" from 31 March stays in March |
| CalendarPage.NavigateMonthAsWrittenIff | app/dashboard/calendar/page.tsx:58-68 | the written navigation moves exactly one month iff the day exists in the target month, and then it equals the corrected one |
| CalendarPage.ShiftMonth | app/dashboard/calendar/page.tsx:58-68 | corrected navigation: a valid date exactly delta months on, with the day clamped to that month's length |
| CalendarPage.ShiftMonthBackAndForth | app/dashboard/calendar/page.tsx:58-68 | one month forward and back restores the month, and the date when its day exists in the month passed |
| CalendarPage.CalendarView.constructor | app/dashboard/calendar/page.tsx:18-20 | opens on today with no day selected |
| CalendarPage.CalendarView.CalendarDays | app/dashboard/calendar/page.tsx:48-50 | the days 1, 2, ... of the shown month in order, as many as the month has |
| CalendarPage.CalendarView.NavigateMonth | app/dashboard/calendar/page.tsx:58-68 | the corrected step of Findings row 1: the shown date moves exactly one month back or forward, the day clamped; whenever the day exists in the target month the result is what the code's `setMonth` gives; the selection is unchanged |
| CalendarPage.CalendarView.GoToToday | app/dashboard/calendar/page.tsx:132 | the shown date becomes today; the selection is unchanged |
| CalendarPage.CalendarView.SelectDate | app/dashboard/calendar/page.tsx:170 | the clicked day becomes the selection; the shown month is unchanged |
| AddGradeModal.CalculatePercentage | components/modals/add-grade-modal.tsx:57-64 | with both numbers truthy and positive points, the percentage rounded to the nearest integer; otherwise 0 |
| AddGradeModal.GetLetterGradeAgrees | components/modals/add-grade-modal.tsx:66-72 | the dialog's letter table is the grades page's table |
| AddGradeModal.CheckScoreAndPoints | components/modals/add-grade-modal.tsx:80-89 | passes exactly when 0 < score <= points; "Please enter valid score and points" exactly for missing/zero/negative numbers or non-positive points, "Score cannot be greater than total points" exactly for a valid score above the points |
| AddGradeModal.ChooseLetter | components/modals/add-grade-modal.tsx:91-92 | the user's letter when one was chosen, else the table's letter for the unrounded percentage |
| AddGradeModal.PrepareSubmission | components/modals/add-grade-modal.tsx:80-101 | fails exactly when the checks fail, with their message; otherwise posts the ids, the parsed score and points (0 < score <= points), the chosen letter and the feedback or nothing when empty |
| AddGradeModal.SubmissionMatchesPreview | components/modals/add-grade-modal.tsx:57-91 | whatever is submitted has a percentage in (0, 100], and the preview equals it rounded |
| AddGradeModal.ZeroScoreRejected | components/modals/add-grade-modal.tsx:83 | a score of "0" previews 0 and is refused as invalid, whatever the points |
| AddGradeModal.FailureMessage | components/modals/add-grade-modal.tsx:111-130 | the shown error is the endpoint's message, or "Failed to add grade" when that is empty; never empty |
| AddGradeModal.GradeForm.constructor | components/modals/add-grade-modal.tsx:31-43 | every field empty, no error, closed |
| AddGradeModal.GradeForm.HandleAssignmentChange | components/modals/add-grade-modal.tsx:45-55 | a known assignment sets its id, course and points (as text, which parses back to the points); an unknown id changes nothing |
| AddGradeModal.GradeForm.HandleSubmit | components/modals/add-grade-modal.tsx:74-132 | a failed check shows its message and sends nothing; a sent submission that is accepted empties every field, clears the error and closes; a refused one shows the failure message and keeps the form |
| Common.Round | components/modals/add-grade-modal.tsx:61 | `Math.round`: the nearest integer, halves rounded up |
| Common.RoundToTenth | app/dashboard/grades/page.tsx:96 | rounding to one decimal: a whole number of tenths, within 0.05 of the value, halves rounded up |
| Common.FindFirst | app/api/assignments/route.ts:81-93 | `findFirst`: the first index satisfying the where-clause, and none exactly when no record satisfies it |
| Common.SortBy | app/api/grades/route.ts:39 | `orderBy`: sorted by the key and a permutation of the input |
| Dates.SetMonth | app/dashboard/calendar/page.tsx:60-66 | `setMonth(m)`: a valid date in month m on the same day, or in the month after on an earlier day; it stays in month m exactly when it keeps the day |
| Dates.SetMonthDayNumber | app/dashboard/calendar/page.tsx:60-66 | `setMonth(m)` lands on the day number of `new Date(year, m, day)`, overflow included |
| Dates.ConstructorYear | app/api/events/route.ts:32-33 | `new Date(year, month, day)` reads a year argument 0-99 as 1900-1999 and any other year as given |
| EventsRoute.TwoDigitYearWindow | app/api/events/route.ts:32-33 | `year=99` gives the window of 1999, not that of the year 99 |
| AddGradeModal.AcceptedPercentage | components/modals/add-grade-modal.tsx:83-91 | a score that passes both checks gives a percentage in (0, 100] |
| NumberText.ParseFloatEmpty | components/modals/add-grade-modal.tsx:80-81 | `parseFloat` of an empty field is no number, so an empty score or points field is refused |
| NumberText.ParseFloat | components/modals/add-grade-modal.tsx:58-59 | a number exactly when, after white space and an optional sign, a digit or a point followed by a digit comes next |
| Validation.NumberField | app/api/assignments/route.ts:12 | accepted exactly when the value (or its default) exists and lies in range; "Required", the min message or the max message otherwise |
| Validation.RealField | app/api/grades/route.ts:8-9 | accepted exactly when the value (or default) exists and is at least the bound; "Required" or the min message otherwise |
| Validation.OptionalNumberField | app/api/assignments/route.ts:22 | absence is accepted; a present value is checked as a number field |
| Validation.StringField | app/api/assignments/route.ts:8 | accepted exactly when present and at least the minimum length, measured in UTF-16 code units as JavaScript's `length` is; "Required" or the field's message otherwise |
| Validation.EnumField | app/api/assignments/route.ts:10-13 | accepted exactly when the value (or default) is one of the options; otherwise "Required" or "Invalid enum value. Expected ..., received '...'" |
| Validation.OptionalEnumField | app/api/assignments/route.ts:23 | absence or a listed option is accepted; otherwise the enum message |
| Validation.First | app/api/assignments/route.ts:108-112 | the first field's message when it failed, otherwise the rest's; none exactly when no field failed |
| NumberText.ParseFloatIntToString | components/modals/add-grade-modal.tsx:52 | points printed with `toString` parse back to the same number |
| NumberText.ParseInt | app/api/events/route.ts:32-33 | a number exactly when a digit follows the optional sign |
| NumberText.ParseIntIntToString | app/api/events/route.ts:32-33 | `parseInt` of a printed integer gives the integer back |
| Store.UniqueKeysAppend | app/api/grades/route.ts:82-92 | inserting a record with a new key keeps the keys unique |
| Store.UniqueKeysUpdate | app/api/assignments/route.ts:159-166 | replacing a record by one with the same key keeps the keys unique |
| GradesRoute.ParseGrade | app/api/grades/route.ts:7-14 | accepted exactly when score >= 0, points >= 1 (default 100) and both ids non-empty; otherwise the first failing field's message in schema order: "Required" or min(0) for score, min(1) for points, "Required" or the field's own message for each id |
| GradesRoute.Percentage | app/api/grades/route.ts:64 | percentage * points = score * 100 |
| GradesRoute.PercentageBounds | app/api/grades/route.ts:64 | never clamped: above 100 exactly for a score above the points, within [0, 100] otherwise |
| GradesRoute.EightyFiveOutOfHundred | app/api/grades/route.ts:64 | 85 of 100 is stored as 85 percent, letter B |
| GradesRoute.BuildWhere | app/api/grades/route.ts:27-31 | always the owner; the course only when the parameter is non-empty; matches exactly the listed grades |
| GradesRoute.GetGrades | app/api/grades/route.ts:16-42 | 401 without a session; otherwise exactly the user's grades (of the course when given), newest first, a permutation of the filtered table |
| GradesRoute.PostGrade | app/api/grades/route.ts:52-100 | 401, then 400 with the schema message, then 404 unless an assignment with that id, owner and course exists; nothing stored on failure; a valid body for such an assignment always gives 201, with exactly one grade appended with the session owner, the server's percentage and the creation time |
| AssignmentsRoute.BuildWhere | app/api/assignments/route.ts:38-48 | always the owner; completed=false for "pending", true for "completed", none otherwise; the course when given; matches exactly the listed assignments |
| AssignmentsRoute.GetAssignments | app/api/assignments/route.ts:26-59 | 401 without a session; otherwise exactly the listed assignments, earliest due first, a permutation of the filtered table |
| AssignmentsRoute.ServerFilterMatchesPage | app/api/assignments/route.ts:38-48 | without a course, the server's selection is the page filter applied to the user's assignments |
| AssignmentsRoute.ParseAssignment | app/api/assignments/route.ts:7-15 | accepted exactly for a non-empty title, a known type, a due date, points >= 1 (default 100), a known priority (default "medium") and a non-empty course id; otherwise the first failing field's message: "Required" or the title message, "Required" or the enum message for type, "Required" for the due date, min(1) for points, the enum message for priority, "Required" or the course-id message |
| AssignmentsRoute.PostAssignment | app/api/assignments/route.ts:69-120 | 401, then 400 with the schema message, then 404 unless the course is the user's; nothing stored on failure; a valid body for an owned course always gives 201, with one open assignment of the session user appended |
| AssignmentsRoute.ParsePatch | app/api/assignments/route.ts:17-24 | only points < 1 or an unknown priority is refused, with zod's message; otherwise the patch unchanged |
| AssignmentsRoute.ApplyPatch | app/api/assignments/route.ts:159-161 | every supplied field written, every absent one kept; id, owner, course, type and creation time never change |
| AssignmentsRoute.ApplyPatchLaws | app/api/assignments/route.ts:159-161 | an empty patch changes nothing; applying a patch twice is applying it once |
| AssignmentsRoute.TogglePatchFlipsOnly | app/api/assignments/route.ts:159-161 | the page's toggle body flips the flag and nothing else |
| AssignmentsRoute.PatchAssignment | app/api/assignments/route.ts:123-182 | 401, then 400 without id, then 400 with the schema message, then 404 unless the assignment is the user's; nothing changes on failure; a valid patch of an owned assignment always gives 200, and exactly that record is replaced by its patched version |
| GoalsRoute.BuildWhere | app/api/goals/route.ts:36-42 | always the owner; completed=false for "active", true for "completed", none otherwise; matches exactly the listed goals |
| GoalsRoute.GetGoals | app/api/goals/route.ts:25-49 | 401 without a session; otherwise exactly the listed goals, newest first, a permutation of the filtered table |
| GoalsRoute.ServerFilterMatchesPage | app/api/goals/route.ts:36-42 | the server's selection is the goals page's filter applied to the user's goals |
| GoalsRoute.TargetDate | app/api/goals/route.ts:11 | an absent or empty date string gives no date, any other its instant |
| GoalsRoute.ParseGoal | app/api/goals/route.ts:7-14 | accepted exactly for a non-empty title, a known category, a known priority (default "medium") and progress in [0, 100] (default 0); otherwise the first failing field's message: "Required" or the title message, "Required" or the enum message for category, the enum message for priority, min(0) or max(100) for progress |
| GoalsRoute.PostGoal | app/api/goals/route.ts:59-91 | 401, then 400 with the schema message; nothing stored on failure; otherwise 201 and one open goal of the session user appended |
| GoalsRoute.ParseGoalPatch | app/api/goals/route.ts:16-23 | only an unknown priority or a progress outside [0, 100] is refused: the enum message first, then min(0) or max(100); an accepted patch is passed on unchanged |
| GoalsRoute.ApplyUpdate | app/api/goals/route.ts:130-133 | supplied fields written, absent ones kept; id, owner, category and creation time never change |
| GoalsRoute.EmptyTargetDateKept | app/api/goals/route.ts:130-133 | a target date sent as "" leaves the stored one in place |
| GoalsRoute.ToggleMatchesPage | app/api/goals/route.ts:130-133 | the page's toggle body is accepted for a stored progress in range and yields exactly the page's toggled goal |
| GoalsRoute.PatchGoal | app/api/goals/route.ts:94-149 | 401, then 400 without id, then 400 with the schema message, then 404 unless the goal is the user's; nothing changes on failure; a valid patch of an owned goal always gives 200, and exactly that record is replaced by its update |
| EventsRoute.MonthWindowIff | app/api/events/route.ts:31-39 | corrected window: an instant is inside exactly when it falls on a day of the requested month, and the window spans that month's days |
| EventsRoute.MonthWindowAsWritten | app/api/events/route.ts:32-33 | as written: starts on the first day of the month and ends on its last day (at 00:00, by `EventsRoute.AsWrittenDropsLastDay`) |
| EventsRoute.MonthWindow | app/api/events/route.ts:32-33 | corrected: starts on the first day of the month and ends on its last day; every instant of that day is inside, by `EventsRoute.MonthWindowIff` |
| EventsRoute.AsWrittenDropsLastDay | app/api/events/route.ts:32-38 | as written, the window is the month cut off at 00:00 of its last day, which it still includes |
| EventsRoute.LastDayEventExcluded | app/api/events/route.ts:32-38 | an event at 09:00 on 31 January 2025 is outside the written window for month 1 of 2025 and inside the corrected one |
| EventsRoute.RequestedWindow | app/api/events/route.ts:31-39 | a window exactly when both month and year are given, the month's window then |
| EventsRoute.GetEvents | app/api/events/route.ts:16-53 | 401 without a session; 500 when a given month or year is not a number; otherwise exactly the user's events (within the month when both are given), earliest first, a permutation of the filtered table |
| EventsRoute.ParseEvent | app/api/events/route.ts:7-14 | accepted exactly for a non-empty title, a known type, a date and a duration in [15, 480] (default 60); otherwise the first failing field's message: "Required" or the title message, "Required" or the enum message for type, "Required" for the date, min(15) or max(480) for the duration |
| EventsRoute.PostEvent | app/api/events/route.ts:56-88 | 401, then 400 with the schema message; nothing stored on failure; otherwise 201 and one event of the session user appended |
| RegisterRoute.UsualAddressValid | app/api/register/route.ts:8 | "ana@uni.edu" is a valid e-mail address |
| RegisterRoute.DotlessDomainInvalid | app/api/register/route.ts:8 | "ana@uni" is not |
| RegisterRoute.ParseRegistration | app/api/register/route.ts:6-10 | accepted exactly for a name of at least 2 UTF-16 code units, a valid e-mail and a password of at least 6; otherwise the first failing field's message: "Required" or its own message for name, e-mail and password in turn |
| RegisterRoute.EmojiPasswordAccepted | app/api/register/route.ts:9 | a password of three emoji meets `min(6)`: each counts as two UTF-16 code units |
| RegisterRoute.WithoutPassword | app/api/register/route.ts:62 | the reply's user has the stored id, name and e-mail |
| RegisterRoute.WithoutPasswordForgets | app/api/register/route.ts:62-66 | the reply does not depend on the password |
| RegisterRoute.Register | app/api/register/route.ts:12-67 | 400 with the schema message, then 500 without a connection, then 400 when the e-mail is taken; users unchanged on failure; on 201 one user appended with the hashed password, returned without it, and the e-mail belongs to exactly that user |
| StatsRoute.AverageGrade | app/api/dashboard/stats/route.ts:60-68 | 0 without grades, otherwise the mean percentage rounded to a whole number of tenths (within 0.05 of the mean) |
| StatsRoute.DashboardStats | app/api/dashboard/stats/route.ts:6-72 | 401 without a session; otherwise totalCourses, totalAssignments and completedAssignments count exactly the user's courses, assignments and completed assignments, upcomingDeadlines counts exactly the user's open assignments due in [now, now + 7 days], the average is that of the user's grades (0 without any); completed + upcoming <= total |
| StatsRoute.FilterPartitionWithin | app/api/dashboard/stats/route.ts:28-56 | the user's completed and open assignment counts add up to the user's total |
| StatsRoute.StatsOwnRecordsOnly | app/api/dashboard/stats/route.ts:23-56 | other users' records never change the statistics |
| StatsRoute.AverageMatchesGradesPage | app/api/dashboard/stats/route.ts:60-68 | the endpoint's average equals the grades page's average for the user's grades |
| StatsRoute.WeekWindowBoundaries | app/api/dashboard/stats/route.ts:47-56 | the seven-day window includes an open assignment due exactly now or exactly seven days on, and excludes one a millisecond outside |
| StatsRoute.CompletingOneAssignment | app/api/dashboard/stats/route.ts:28-56 | completing one of the user's open assignments through the update endpoint raises the completed count by one, keeps the total, and takes it out of the upcoming count if it was there |

## Left out

- Time zones: every date is taken in UTC, while the pages and `new Date(year, month, day)` use the local time zone.
- Floating point: numbers are exact `real`s. `Math.round(x)` is floor(x + 0.5), and `toFixed` display rounding is not modelled.
- `parseFloat` reads decimal digits with an optional sign and fraction. Exponents, "Infinity" and hexadecimal forms of `parseInt` are left out.
- White space before a number: `NumberText.IsSpace` knows only space, tab, line feed and carriage return. JavaScript also skips \v, \f, U+00A0, U+FEFF, U+2028, U+2029 and the other Unicode space separators; those are not modelled.
- Request bodies are given field by field. Every present field is assumed to have the JSON type its schema expects. zod's type-mismatch messages, and malformed JSON (which the handlers turn into 500), are not modelled.
- The `z.number()` fields of assignments (`points`), goals (`progress`) and events (`duration`) are taken as integers, because that is how the forms send them: the assignment and goal forms read their numbers with `parseInt` (components/modals/add-assignment-modal.tsx:204, components/modals/edit-goal-modal.tsx:205). A fractional value sent directly such as progress 50.5 is not modelled; grade scores and points are `real`.
- Date strings in bodies are given as the instant they denote. Invalid date strings are not modelled.
- The e-mail check follows zod 3's pattern, with letters matched in either case. Non-ASCII addresses are not covered.
- Prisma's `include` of related records is not modelled: replies carry the records themselves.
- Prisma failures beyond the ones named here, and the handlers' catch-all 500 answer, are not modelled. The events month or year that is not a number is modelled.
- New record ids and creation times are parameters, taken to be fresh. The database's own id generation is not part of this model.
- Sorting: the order of records with equal sort keys is whatever the database returns. The contracts state only sortedness and that the result is a permutation of the selection.
- `RegisterRoute.Register`: does not state that the stored password differs from the plaintext. That depends on bcrypt, which is the `hash` parameter here. `$connect` is the `connected` flag; `$disconnect` and the classification of other error messages (app/api/register/route.ts:79-101) are left out.
- `StatsRoute.DashboardStats`: `new Date()` and `Date.now()` are taken as one instant `now`.
- React rendering, loading flags, `fetch`, `router.refresh` and `onGradeAdded`: the pages' server answers are parameters (`serverOk`, `answer`).
- The courses page's `Number.isFinite` guard is not modelled separately: with exact arithmetic every progress is finite.
- The PATCH handlers in app/api/assignments/[id]/route.ts:16-78 and app/api/goals/[id]/route.ts:16-74 are the ones the pages' toggles call (`/api/assignments/${id}`, `/api/goals/${id}`). Apart from taking the id from the path rather than from `?id=`, they are line for line the modelled PATCH handlers of app/api/assignments/route.ts and app/api/goals/route.ts: the same schema, the same owner check, the same replies. So `AssignmentsRoute.PatchAssignment`, `GoalsRoute.PatchGoal` and the lemmas about them describe these handlers too, with `id` the path segment.
- Deleting records (the DELETE handlers of the `[id]` routes) and the courses route are outside the modelled core.
- The add-grade dialog rejects a score of 0, although the grades endpoint accepts it (`AddGradeModal.ZeroScoreRejected`). This is recorded as behaviour, not as a defect.
- `EventsRoute.GetEvents`: the month filter evidently should cover the whole last day, but the code ends the window at 00:00 of that day. `EventsRoute.GetEvents` uses the corrected window; the code's own window is `EventsRoute.MonthWindowAsWritten` (Findings row 2).
- `EventsRoute.RequestedWindow`: gives the corrected window `EventsRoute.MonthWindow`, ending at the last millisecond of the month, not the code's window ending at 00:00 of the last day (Findings row 2).
- `CalendarPage.CalendarView.NavigateMonth`: uses the corrected one-month step `CalendarPage.ShiftMonth` (Findings row 1), not the code's `setMonth`, which on days 29-31 can skip a month; `CalendarPage.NavigateMonthAsWritten` is the code's own step, and the method's contract states that the two agree whenever the day exists in the target month.

## Findings

| source | as written | input that shows it | evidently intended | confidence | as-written member | corrected member |
|---|---|---|---|---|---|---|
| app/dashboard/calendar/page.tsx:58-68 | `setMonth(getMonth() ± 1)` on a copy of the shown date keeps the day of the month, which overflows into the following month | shown date 31 January 2025, "next": the date becomes 3 March 2025, so February is skipped | move exactly one month, clamping the day to the target month | high, not executed | CalendarPage.NavigateMonthSkipsMonth | CalendarPage.ShiftMonth |
| app/api/events/route.ts:32-38 | the window ends at `new Date(year, month, 0)`, 00:00 of the month's last day | an event at 09:00 on 31 January 2025, listed with month=1 and year=2025, is not returned | the whole last day is included | medium, not executed | EventsRoute.LastDayEventExcluded | EventsRoute.MonthWindowIff |
