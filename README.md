# Course duplication schedule engine

A Dafny model of the schedule logic of the course module of the ComPAIR
(formerly ACJ) web client, `acj/static/modules/course/course-module.js`.
When an instructor duplicates a course into a new term, the client:

- proposes a start date for the duplicate by moving the original course start
  by whole weeks into the seven days up to now;
- picks an anchor (the Monday of the original course start, or else the
  earliest Monday among the assignments' answer starts);
- moves every assignment boundary by the one whole-week delta between the anchor
  and the proposed start, keeping each boundary's clock time;
- validates the course period and every assignment's answer and compare periods
  in order, stopping at the first failure, before the duplicate is sent.

The same file holds the course-period rule of the two course forms (create,
edit) and the per-student progress and filters of the assignment list, which
are modelled too.

Instants are integer milliseconds on one fixed-zone timeline. `DAY` is
86 400 000 and `WEEK` is seven days. Epoch day 0 is a Thursday, so the weekday
with Monday = 0 is `(t / DAY + 3) % 7`. Floor division is Dafny's `/` with a
positive divisor. A datepicker value is a `DateTimeParts(date, time)`: the
`date` is an `Option<int>` (null when unset), the `time` an instant whose clock
time is what counts.

Modules, one per component:

- `Wrappers` (`wrappers.dfy`): `Option`.
- `Timeline` (`timeline.dfy`): `combineDateTime`, `getWeeksDelta`,
  `getNewDuplicateDate` and ISO week starts, as functions with lemmas.
- `Schedule` (`schedule.dfy`): the records, and the engine as pure functions:
  - anchor (`StartPoint`);
  - rebase (`RebaseAssignment`, `Rebase`);
  - seeding of the duplicate course dates (`SeedCourseDates`);
  - validation (`CheckAssignment`, `FirstRejected`, `Validate`) and
    normalisation (`SubmissionOf`).
- `CourseDuplication` (`course_select.dfy`): the selection modal's scope as the
  class `CourseSelectModal`. Its methods `SelectDuplicateCourse`,
  `CancelSelectDuplicateCourse`, `AdjustDuplicateAssignmentDates`, `Duplicate`
  and `Save` update its fields. `AdjustDuplicateAssignmentDates` and `Duplicate`
  (through `CollectSubmissions`) run the source's loops, and they are proved
  against the functions of `Schedule`.
- `CourseEditing` (`course_editor.dfy`): the course edit form as the class
  `CourseEditor` (`new`, `edit`, `save`).
- `CourseAssignments` (`course_assignments.dfy`): the status loop of the
  assignment list (`ApplyStatuses`) and `assignmentFilter`.
- `DuplicationScenarios` (`scenarios.dfy`): the test suite's duplication
  fixtures and expected values, stated as lemmas.

Inputs that the source takes from the environment are parameters:

- "now" (`moment()`, `new Date()`) is `now`;
- the current year is `year`;
- the LTI course name is `courseName`;
- the fetched assignment list is `fetched`, an `Option` whose `None` is the
  failed request;
- the course and statuses returned by the server are `fetched` and `statuses`.

Behaviour of the code that a reader may not expect, and that the model follows:

- `combineDateTime` of a part whose date is null is not null. It is the clock
  time on the epoch's day, because `new Date(null)` is the epoch. The course
  boundaries are guarded by `date != null` (lines 362-371). The assignment
  boundaries are not (lines 383-386).
- The seeded course start and end keep the default clock times 00:00 and 23:59
  (lines 316-317). The end's clock time is not copied from the original end.
  So a seeded period conflicts only when the original end is on an earlier day
  than the original start (`SeededCoursePeriod`).
- The course period rejects only a start strictly after the end. Equal instants
  pass (lines 372, 446, 552).
- A compare boundary's date is set whenever that one source boundary exists
  (lines 270-278). `availableCheck` is set only when both exist (lines 280-282),
  and otherwise stays undefined (`None`).
- A missing proposed start, or a missing anchor, is "now" in `getWeeksDelta`
  (lines 14-15). With no course start and no assignments, the rebuilt list is
  simply empty.
- The seeded start is the last instant up to "now" with the original start's
  weekday and clock time. It is in the ISO week of "now" only when that weekday
  and clock time are no later in the week than "now"'s. Otherwise it is in the
  week before (`Timeline.SeededStartIsoWeek`). The test at
  course-module_spec.js:488-492 expects the current week.

Idempotence of the rebase follows from the contract of
`AdjustDuplicateAssignmentDates`. Its new `duplicateAssignments` is a function
of the original course, the original assignments, the proposed start and "now"
only. The old list plays no part.

## Model

| member | source | states |
|---|---|---|
| Timeline.CombineDateTime | acj/static/modules/course/course-module.js:6-11 | the result has the calendar day of the date part and the clock time of the time part |
| Timeline.CombineSelf | acj/static/modules/course/course-module.js:511-514 | combining an instant's own date and time gives back the instant |
| Timeline.CombineDependsOnDayAndClock | acj/static/modules/course/course-module.js:6-11 | two part pairs with the same day and the same clock time combine to the same instant |
| Timeline.WeeksDelta | acj/static/modules/course/course-module.js:13-19 | the delta k is the floor of the week difference: k*WEEK <= a-b < (k+1)*WEEK, negative differences included; a missing argument is now |
| Timeline.WeeksDeltaAntisymmetry | acj/static/modules/course/course-module.js:16-18 | swapping the arguments negates the delta for whole-week differences and gives one less otherwise (floor, not truncation) |
| Timeline.ShiftWeeks | acj/static/modules/course/course-module.js:21-25 | the result is the original (or now) plus the week count (or 0) times WEEK, with the same clock time and weekday and a day 7*weeks later |
| Timeline.ShiftIdentityAndComposition | acj/static/modules/course/course-module.js:21-25 | a shift by 0 or by a missing count is the identity; shifting by n then m is shifting by n+m |
| Timeline.StartOfIsoWeek | acj/static/modules/course/course-module.js:239-243 | the ISO week start is a Monday 00:00 on or before the instant and less than a week before it |
| Timeline.StartOfIsoWeekIdempotent | acj/static/modules/course/course-module.js:239-243 | a week start is its own week start |
| Timeline.SeededStartWithinWeekBeforeNow | acj/static/modules/course/course-module.js:321-323 | the original start moved by weeksDelta(now, start) lies in (now-WEEK, now] |
| Timeline.SeededStartIsoWeek | acj/static/modules/course/course-module.js:321-323 | the seeded start is in now's ISO week exactly when its offset into its week is no more than now's; otherwise it is in the week before |
| Timeline.DeltaToWeekOfProposedStart | acj/static/modules/course/course-module.js:249 | against a Monday anchor, any proposed start in the week of Monday m gives delta*WEEK == m - anchor |
| Timeline.DeltaFromOwnWeekStart | acj/static/modules/course/course-module.js:239-249 | an instant k weeks after t, measured against the week start of t, gives delta k |
| Timeline.StartOfIsoWeekShift | acj/static/modules/course/course-module.js:239-243 | moving an instant by k weeks moves its week start by k weeks |
| Schedule.DefaultClockTimes | acj/static/modules/course/course-module.js:316-317 | the default time parts have clock times 00:00 and 23:59 |
| Schedule.Combined | acj/static/modules/course/course-module.js:383-386 | a boundary combines to the day of its date part (the epoch's day when null) at the clock time of its time part |
| Schedule.CombinedOrNull | acj/static/modules/course/course-module.js:362-371 | a course boundary is null exactly when its date part is null, and otherwise has that date's day and the time part's clock time |
| Schedule.MinAnswerWeekStart | acj/static/modules/course/course-module.js:241-247 | the running minimum is <= every assignment's answer-start week start and equals one of them |
| Schedule.StartPoint | acj/static/modules/course/course-module.js:237-248 | the anchor is the course start's week start when there is a course start, else the least answer-start week start; it exists exactly when one of them does and is a Monday 00:00 |
| Schedule.PeriodConflict | acj/static/modules/course/course-module.js:372 | the test shared with lines 446 and 552: a conflict needs both boundaries set; equal boundaries never conflict |
| Schedule.RebaseDelta | acj/static/modules/course/course-module.js:249 | the delta is the floor of the weeks from the anchor (now when missing) to the proposed start (now when missing) |
| Schedule.RebaseAssignment | acj/static/modules/course/course-module.js:253-282 | id and name are copied; both answer dates are set; a compare date is set exactly when its source is, and otherwise the start part keeps midnight; availableCheck is true exactly when both compare sources exist and undefined otherwise |
| Schedule.Rebase | acj/static/modules/course/course-module.js:251-306 | the rebuilt list has one entry per original assignment, in order, each the rebase of that original with the one delta |
| Schedule.ShiftedPartsCombine | acj/static/modules/course/course-module.js:264-265 | a rebased boundary combines to its source plus delta weeks, and its time part is the source instant |
| Schedule.RebasedAssignmentBoundaries | acj/static/modules/course/course-module.js:253-282 | ids and names are copied; every set boundary is its source plus delta weeks with the source as time part; a compare date is set exactly when its source is; availableCheck is true exactly when both compare sources exist and undefined otherwise |
| Schedule.RebaseKeepsDifferences | acj/static/modules/course/course-module.js:249-306 | differences between any two rebased answer boundaries of the list equal the source differences |
| Schedule.RebaseIntoProposedWeek | acj/static/modules/course/course-module.js:249-278 | for a proposed start in the week of Monday m, every rebased boundary is as far after m as its source is after the anchor |
| Schedule.Submissions | acj/static/modules/course/course-module.js:404-410 | one submission per duplicate, in order, with the same ids |
| Schedule.FirstRejected | acj/static/modules/course/course-module.js:378-402 | the index found is the first failing assignment: all before it pass and it fails, or it is the length when none fails |
| Schedule.SubmissionOf | acj/static/modules/course/course-module.js:381-408 | the submission keeps the id; each boundary has the day of its date part and the clock time of its time part; the compare boundaries are present exactly when availableCheck is true |
| Schedule.CheckAssignment | acj/static/modules/course/course-module.js:389-402 | the three checks pass exactly when the normalised submission is well formed; a failure is an assignment verdict carrying the assignment's name; the verdict is the answer-period error exactly when the answer start is not before its end, the overlap error exactly when that check passes and the comparison starts before the answer start, and the compare-period error exactly when both earlier checks pass and the compare start is not before its end |
| Schedule.Validate | acj/static/modules/course/course-module.js:358-402 | the verdict is a course-period conflict exactly when both course boundaries are set and the start is after the end; any other rejection is the verdict of some assignment all of whose predecessors pass |
| Schedule.ValidateAcceptsExactlyWellFormed | acj/static/modules/course/course-module.js:358-411 | duplicate accepts exactly when the course period does not conflict and every submission is well formed |
| Schedule.RebasedSubmissionIsShift | acj/static/modules/course/course-module.js:252-306 | the submission of a rebased assignment is the source moved by delta weeks, with compare boundaries only when both source ones exist |
| Schedule.RebasePreservesOrdering | acj/static/modules/course/course-module.js:389-402 | a rebased assignment passes the checks exactly when its source windows are ordered, whatever the delta |
| Schedule.SeedCourseDates | acj/static/modules/course/course-module.js:312-328 | the seeded start is set exactly when the original start is, and the end exactly when both are; the clock times are 00:00 and 23:59; a seeded start lies in (now-WEEK, now] on the original start's weekday |
| Schedule.SeededStart | acj/static/modules/course/course-module.js:321-327 | the seeded start is start + k*WEEK in (now-WEEK, now] on the original weekday; the end moves by the same k with the same day distance; rebasing against the seeded start uses delta k |
| Schedule.SeededCoursePeriod | acj/static/modules/course/course-module.js:316-327 | the seeded course period conflicts exactly when both original ends exist and the end is on an earlier day than the start |
| Schedule.SeededDuplicateVerdict | acj/static/modules/course/course-module.js:309-411 | selecting a course and submitting the proposal unchanged is accepted exactly when the original course days and every original assignment's windows are in order |
| CourseDuplication.FindStartPoint | acj/static/modules/course/course-module.js:237-248 | the anchor loop computes the anchor of StartPoint |
| CourseDuplication.BuildDuplicate | acj/static/modules/course/course-module.js:253-282 | one iteration of the rebuild yields the rebased record |
| CourseDuplication.CheckAndSubmit | acj/static/modules/course/course-module.js:379-408 | one iteration of duplicate yields the verdict of the three checks and, when they pass, the normalised submission |
| CourseDuplication.CollectSubmissions | acj/static/modules/course/course-module.js:378-410 | the loop of duplicate returns the verdict of the first rejected assignment (Accepted when none) and the submissions of the assignments before it |
| CourseDuplication.CourseSelectModal.constructor | acj/static/modules/course/course-module.js:196-216 | the initial scope: not submitted, form hidden, the new-course form from the current year and the LTI name with null dates and default clock times; the duplicate's fields hold placeholders (see Left out) |
| CourseDuplication.CourseSelectModal.SelectDuplicateCourse | acj/static/modules/course/course-module.js:309-352 | the duplicate gets the term, the year and the seeded dates; the fetched assignments (none on failure) are taken and rebased against the seeded start |
| CourseDuplication.CourseSelectModal.CancelSelectDuplicateCourse | acj/static/modules/course/course-module.js:354-356 | the duplicate form is hidden and nothing else changes |
| CourseDuplication.CourseSelectModal.AdjustDuplicateAssignmentDates | acj/static/modules/course/course-module.js:228-307 | duplicateAssignments is replaced by the rebase of the originals with the delta from the anchor to the proposed start; nothing else changes |
| CourseDuplication.CourseSelectModal.Duplicate | acj/static/modules/course/course-module.js:358-411 | the verdict is Validate's; submitted stays set exactly on acceptance; start/end dates are filled in, and the submissions collected are those before the first failure (all on acceptance, none on a course conflict) |
| CourseDuplication.CourseSelectModal.Save | acj/static/modules/course/course-module.js:434-450 | the course's dates are the combined form dates (null when unset); a start after the end is a conflict and clears submitted |
| CourseEditing.LoadedDates | acj/static/modules/course/course-module.js:510-514 | the parts loaded from a course combine back to its own start and end dates |
| CourseEditing.CourseEditor.constructor | acj/static/modules/course/course-module.js:495-500 | the form starts with null dates and default clock times |
| CourseEditing.CourseEditor.New | acj/static/modules/course/course-module.js:502-504 | only the course year changes, to the current year |
| CourseEditing.CourseEditor.Edit | acj/static/modules/course/course-module.js:506-518 | the fetched course and its loaded date parts replace the form's |
| CourseEditing.CourseEditor.Save | acj/static/modules/course/course-module.js:537-556 | the same course-period rule as the modal's save |
| CourseEditing.EditThenSaveRoundTrip | acj/static/modules/course/course-module.js:506-556 | loading a course and saving it unchanged gives back its dates, and conflicts exactly when its start is after its end |
| CourseAssignments.DeriveProgress | acj/static/modules/course/course-module.js:120-133 | the comparisons left are copied and a self-evaluation is needed exactly when it is enabled and not done; for non-negative counts, steps left is zero exactly when no comparison and no self-evaluation is left; answers are available after comparing with a compare period, and otherwise only once no step is left |
| CourseAssignments.FirstWithoutStatus | acj/static/modules/course/course-module.js:116-118 | the index found is the first assignment without a status, or the length |
| CourseAssignments.AssignmentFilter | acj/static/modules/course/course-module.js:162-185 | "All course assignments" keeps everything, an unknown filter nothing; a pending assignment is in its answer or compare period, and one in its answer period with no answer recorded is pending |
| CourseAssignments.PendingAfterStatus | acj/static/modules/course/course-module.js:178-180 | after the statuses are in, "My pending assignments" keeps exactly the unanswered assignments in their answer period and those in their compare period with comparisons or a self-evaluation left |
| CourseAssignments.CourseAssignmentsList.constructor | acj/static/modules/course/course-module.js:79-111 | the list holds the fetched assignments and nothing is answered |
| CourseAssignments.CourseAssignmentsList.ApplyStatuses | acj/static/modules/course/course-module.js:113-134 | every assignment up to the first without a status gets the progress derived from its status, the rest are unchanged, and the result says whether all had one |
| DuplicationScenarios.CourseAnchoredScenario | acj/static/modules/course/course-module_spec.js:477-563 | for a proposed start in any week, each duplicate boundary is that week's Monday plus the expected day offset, at the original time; only the second assignment gets a compare window |
| DuplicationScenarios.SeededCourseEndScenario | acj/static/modules/course/course-module_spec.js:494-515 | the seeded course end is 116 days after the seeded start |
| DuplicationScenarios.AssignmentAnchoredScenario | acj/static/modules/course/course-module.js:240-247 | without a course start the anchor is the Monday of the earliest answer start, not of the first listed assignment |
| DuplicationScenarios.ValidationScenarios | acj/static/modules/course/course-module_spec.js:566-620 | a course end before the start, an answer end before the start, a compare start before the answer start and an empty compare period each give their verdict; an equal course period passes; a stale compare window without availableCheck passes and is cleared |

## Left out

- Requests and their outcomes are left to the caller. This covers `CourseResource`, `AssignmentResource`, `UserResource` and `Session`. The `finally` that clears `submitted` once a request settles is part of this. So are `$modalInstance.close`, `$location` and `selectCourse`: these are foreign calls with no logic.
- Toaster messages are modelled as `Verdict` tags only. The message text is not modelled.
- The permission checks (`Authorize.can`, lines 82-97) are not modelled. So is the list of filter names they build: its content depends on a permission answer from the server.
- `deleteAssignment` (lines 148-160) is a request. The list filtering that follows the request is not modelled.
- `updateCourseList` and the paging watcher (lines 462-477) are not modelled: they only fetch a page of courses.
- The `confirm()` dialog of `adjustDuplicateAssignmentDates` is not modelled; the model behaves as if `skipConfirm` were always true.
- The datepicker `open` handlers are UI state only and are not modelled.
- CourseDuplication.CourseSelectModal.constructor: before any course is selected the source leaves `originalAssignments`, `duplicateAssignments` and the dates of `duplicateCourse` undefined, so `duplicate()` or `adjustDuplicateAssignmentDates` then throws a TypeError. The model gives that pre-selection scope defaults instead (empty lists, null dates with the default clock times, an empty original course) and does not model the throw.
- Calendar semantics are fixed 7-day weeks on one fixed-zone timeline. moment's local-time calendar arithmetic and daylight saving changes are not modelled.
- `diff(..., 'weeks', true)` divides in floating point. The model uses exact integer floor division. The two agree while the millisecond difference is below 2^53 (about 285,000 years): the difference is then exact and the quotient, below 2^24 weeks, is rounded with a half-ulp smaller than 1/WEEK. For larger differences, which two dates of the JavaScript range can reach, the floor of the rounded quotient can differ from the model's by one.
- The JavaScript `Date` range is not modelled: instants are unbounded integers. The invalid date of `new Date(undefined)` is not modelled either: date parts are either null or set.
- CourseAssignments.CourseAssignmentsList.ApplyStatuses: the `assignment.status` field itself is not kept, only the fields derived from it. On an assignment without a status the source throws after setting `status` to undefined. The model stops at that assignment and leaves it unchanged.
- The server-side notification task `compair/tasks/assignment_notification.py` is not part of this model: it is database queries and e-mail sends. The schema migration `alembic/versions/8387e6236c72_add_assignment_ending_notification.py` is not part of this model either.
