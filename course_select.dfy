/** The course selection modal: picking a course to duplicate, rebasing its
    assignments onto the proposed start, validating and assembling the
    duplicate, and saving a new course. The scope's fields are the fields of
    one object; the requests it sends are left to the caller. */
module CourseDuplication {
  import opened Wrappers
  import opened Timeline
  import opened Schedule

  /** `$scope.duplicateCourse`: the editable dates, and what `duplicate` fills in
      (`start_date`, `end_date`, `assignments`). */
  datatype DuplicateCourse = DuplicateCourse(year: int, term: string, dates: CourseDates,
                                             startDate: Option<int>, endDate: Option<int>,
                                             assignments: seq<AssignmentSubmit>)

  function DefaultCourseDates(now: int): CourseDates {
    CourseDates(DateTimeParts(None, StartOfDayDefault(now)), DateTimeParts(None, EndOfDayDefault(now)))
  }

  /** The anchor loop of `adjustDuplicateAssignmentDates`: the week start of the course
      start if there is one, else the running minimum over the answer starts. */
  method FindStartPoint(course: Course, originals: seq<Assignment>) returns (startPoint: Option<int>)
    ensures startPoint == StartPoint(course, originals)
  {
    startPoint := None;
    if course.startDate.Some? {
      startPoint := Some(StartOfIsoWeek(course.startDate.value));
    } else if |originals| > 0 {
      var least := AnswerWeekStart(originals[0]);
      var i := 0;
      while i < |originals|
        invariant 0 <= i <= |originals|
        invariant least == if i == 0 then AnswerWeekStart(originals[0]) else MinAnswerWeekStart(originals[..i])
      {
        var answerStartPoint := AnswerWeekStart(originals[i]);
        if answerStartPoint < least {
          least := answerStartPoint;
        }
        assert originals[..i + 1][..i] == originals[..i];
        i := i + 1;
      }
      assert originals[..|originals|] == originals;
      startPoint := Some(least);
    }
  }

  /** One iteration of the rebuild: a record with default parts whose dates are then set
      from the source, moved by `weekDelta` weeks. */
  method BuildDuplicate(a: Assignment, weekDelta: int, now: int) returns (d: DuplicateAssignment)
    ensures d == RebaseAssignment(a, weekDelta, now)
  {
    d := DuplicateAssignment(a.id, a.name,
                             DateTimeParts(None, StartOfDayDefault(now)),
                             DateTimeParts(None, EndOfDayDefault(now)),
                             DateTimeParts(None, StartOfDayDefault(now)),
                             DateTimeParts(None, EndOfDayDefault(now)),
                             None);
    d := d.(astart := DateTimeParts(Some(ShiftWeeks(Some(a.answerStart), Some(weekDelta), now)), a.answerStart));
    d := d.(aend := DateTimeParts(Some(ShiftWeeks(Some(a.answerEnd), Some(weekDelta), now)), a.answerEnd));
    if a.compareStart.Some? {
      d := d.(cstart := DateTimeParts(Some(ShiftWeeks(a.compareStart, Some(weekDelta), now)), a.compareStart.value));
    }
    if a.compareEnd.Some? {
      d := d.(cend := DateTimeParts(Some(ShiftWeeks(a.compareEnd, Some(weekDelta), now)), a.compareEnd.value));
    }
    if a.compareStart.Some? && a.compareEnd.Some? {
      d := d.(availableCheck := Some(true));
    }
  }

  /** One iteration of `duplicate`: combine the four boundaries, run the three checks in
      order, and null the compare boundaries when the comparison is not enabled. */
  method CheckAndSubmit(assignment: DuplicateAssignment) returns (check: Verdict, submit: AssignmentSubmit)
    ensures check == CheckAssignment(assignment)
    ensures check == Accepted ==> submit == SubmissionOf(assignment)
  {
    submit := AssignmentSubmit(assignment.id,
                               Combined(assignment.astart), Combined(assignment.aend),
                               Some(Combined(assignment.cstart)), Some(Combined(assignment.cend)));
    var enabled := assignment.availableCheck == Some(true);
    if submit.answerStart >= submit.answerEnd {
      check := AnswerPeriodError(assignment.name);
      return;
    } else if enabled && submit.answerStart > submit.compareStart.value {
      check := AnswerCompareOverlap(assignment.name);
      return;
    } else if enabled && submit.compareStart.value >= submit.compareEnd.value {
      check := ComparePeriodError(assignment.name);
      return;
    }
    if !enabled {
      submit := submit.(compareStart := None, compareEnd := None);
    }
    check := Accepted;
  }

  /** The loop of `duplicate`: check and collect the assignments in order, stopping at
      the first one the checks reject. */
  method CollectSubmissions(ds: seq<DuplicateAssignment>) returns (verdict: Verdict, collected: seq<AssignmentSubmit>)
    ensures var k := FirstRejected(ds);
            && verdict == (if k < |ds| then CheckAssignment(ds[k]) else Accepted)
            && collected == Submissions(ds[..k])
  {
    collected := [];
    var index := 0;
    while index < |ds|
      invariant 0 <= index <= FirstRejected(ds)
      invariant collected == Submissions(ds[..index])
    {
      var assignment := ds[index];
      var check, submit := CheckAndSubmit(assignment);
      if check != Accepted {
        verdict := check;
        return;
      }
      assert ds[..index + 1] == ds[..index] + [assignment];
      collected := collected + [submit];
      index := index + 1;
    }
    assert ds[..index] == ds;
    verdict := Accepted;
  }

  class CourseSelectModal {
    var submitted: bool
    var showDuplicateForm: bool
    /** The new-course form: `$scope.course` and `$scope.date`. */
    var course: Course
    var dates: CourseDates
    var originalCourse: Course
    var duplicateCourse: DuplicateCourse
    var originalAssignments: seq<Assignment>
    var duplicateAssignments: seq<DuplicateAssignment>

    /** The controller's initial scope; `year` and `courseName` come from the clock and LTI. */
    constructor (now: int, year: int, courseName: string)
      ensures !submitted && !showDuplicateForm
      ensures course == Course("", courseName, year, "", None, None)
      ensures dates == DefaultCourseDates(now)
      ensures originalAssignments == [] && duplicateAssignments == []
    {
      submitted := false;
      showDuplicateForm := false;
      course := Course("", courseName, year, "", None, None);
      dates := DefaultCourseDates(now);
      originalCourse := Course("", "", 0, "", None, None);
      duplicateCourse := DuplicateCourse(year, "", DefaultCourseDates(now), None, None, []);
      originalAssignments := [];
      duplicateAssignments := [];
    }

    /** `selectDuplicateCourse`: seed the duplicate's dates from `c`, take the fetched
        assignments (None when the request fails: the lists stay empty) and rebase them. */
    method SelectDuplicateCourse(c: Course, fetched: Option<seq<Assignment>>, now: int, year: int)
      modifies this
      ensures showDuplicateForm && originalCourse == c
      ensures duplicateCourse == DuplicateCourse(year, c.term, SeedCourseDates(c, now), None, None, [])
      ensures originalAssignments == fetched.GetOr([])
      ensures duplicateAssignments ==
                Rebase(originalAssignments,
                       RebaseDelta(duplicateCourse.dates.courseStart.date, c, originalAssignments, now), now)
      ensures submitted == old(submitted) && course == old(course) && dates == old(dates)
    {
      showDuplicateForm := true;
      originalCourse := c;
      var seeded := DefaultCourseDates(now);
      if c.startDate.Some? {
        var weekDelta := WeeksDelta(Some(now), c.startDate, now);
        seeded := seeded.(courseStart := seeded.courseStart.(date := Some(ShiftWeeks(c.startDate, Some(weekDelta), now))));
        if c.endDate.Some? {
          seeded := seeded.(courseEnd := seeded.courseEnd.(date := Some(ShiftWeeks(c.endDate, Some(weekDelta), now))));
        }
      }
      duplicateCourse := DuplicateCourse(year, c.term, seeded, None, None, []);
      originalAssignments := [];
      duplicateAssignments := [];
      if fetched.Some? {
        originalAssignments := fetched.value;
        AdjustDuplicateAssignmentDates(now);
      }
    }

    /** `cancelSelectDuplicateCourse`: hide the duplicate form; everything selected so far
        stays in place for the next selection to overwrite. */
    method CancelSelectDuplicateCourse()
      modifies this`showDuplicateForm
      ensures !showDuplicateForm
    {
      showDuplicateForm := false;
    }

    /** `adjustDuplicateAssignmentDates(true)`: pick the anchor, compute the one week delta
        against the proposed start and rebuild `duplicateAssignments` from scratch. */
    method AdjustDuplicateAssignmentDates(now: int)
      modifies this`duplicateAssignments
      ensures duplicateAssignments ==
                Rebase(originalAssignments,
                       RebaseDelta(duplicateCourse.dates.courseStart.date, originalCourse, originalAssignments, now), now)
      ensures |duplicateAssignments| == |originalAssignments|
    {
      var originals := originalAssignments;
      var startPoint := FindStartPoint(originalCourse, originals);
      var weekDelta := WeeksDelta(duplicateCourse.dates.courseStart.date, startPoint, now);

      duplicateAssignments := [];
      var j := 0;
      while j < |originals|
        invariant 0 <= j <= |originals|
        invariant |duplicateAssignments| == j
        invariant forall k :: 0 <= k < j ==>
                    duplicateAssignments[k] == RebaseAssignment(originals[k], weekDelta, now)
      {
        var d := BuildDuplicate(originals[j], weekDelta, now);
        duplicateAssignments := duplicateAssignments + [d];
        j := j + 1;
      }
    }

    /** `duplicate`: fill in the course period, then check and collect the assignments in
        order; the first failure ends the call with `submitted` cleared. */
    method Duplicate() returns (verdict: Verdict)
      modifies this`submitted, this`duplicateCourse
      ensures verdict == Validate(duplicateCourse.dates, duplicateAssignments)
      ensures submitted <==> verdict == Accepted
      ensures var start := CombinedOrNull(old(duplicateCourse).dates.courseStart);
              var end := CombinedOrNull(old(duplicateCourse).dates.courseEnd);
              var done := if PeriodConflict(start, end) then 0 else FirstRejected(duplicateAssignments);
              duplicateCourse == old(duplicateCourse).(startDate := start, endDate := end,
                                                      assignments := Submissions(duplicateAssignments[..done]))
    {
      submitted := true;
      duplicateCourse := duplicateCourse.(assignments := []);
      var start: Option<int> := None;
      if duplicateCourse.dates.courseStart.date.Some? {
        start := Some(Combined(duplicateCourse.dates.courseStart));
      }
      var end: Option<int> := None;
      if duplicateCourse.dates.courseEnd.date.Some? {
        end := Some(Combined(duplicateCourse.dates.courseEnd));
      }
      duplicateCourse := duplicateCourse.(startDate := start, endDate := end);
      if start.Some? && end.Some? && start.value > end.value {
        submitted := false;
        verdict := CoursePeriodConflict;
        return;
      }

      var collected;
      verdict, collected := CollectSubmissions(duplicateAssignments);
      duplicateCourse := duplicateCourse.(assignments := collected);
      submitted := verdict == Accepted;
    }

    /** `save` of the new-course form: the same course-period rule; the request itself is
        left to the caller. */
    method Save() returns (verdict: Verdict)
      modifies this`submitted, this`course
      ensures var start := CombinedOrNull(dates.courseStart);
              var end := CombinedOrNull(dates.courseEnd);
              && course == old(course).(startDate := start, endDate := end)
              && verdict == (if PeriodConflict(start, end) then CoursePeriodConflict else Accepted)
      ensures submitted <==> verdict == Accepted
    {
      submitted := true;
      if dates.courseStart.date.Some? {
        course := course.(startDate := Some(Combined(dates.courseStart)));
      } else {
        course := course.(startDate := None);
      }
      if dates.courseEnd.date.Some? {
        course := course.(endDate := Some(Combined(dates.courseEnd)));
      } else {
        course := course.(endDate := None);
      }
      if course.startDate.Some? && course.endDate.Some? && course.startDate.value > course.endDate.value {
        submitted := false;
        verdict := CoursePeriodConflict;
        return;
      }
      verdict := Accepted;
    }
  }
}
