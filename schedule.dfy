/** The schedule engine of course duplication, as values: the records the
    duplication form works on, the rebase of an original schedule onto a new
    course start, and the validation that runs before a duplicate is sent. */
module Schedule {
  import opened Wrappers
  import opened Timeline

  /** A course as fetched from the server (`start_date`, `end_date` may be null). */
  datatype Course = Course(id: string, name: string, year: int, term: string,
                           startDate: Option<int>, endDate: Option<int>)

  /** An original assignment: its answer period is always set, its compare period may not be. */
  datatype Assignment = Assignment(id: string, name: string,
                                   answerStart: int, answerEnd: int,
                                   compareStart: Option<int>, compareEnd: Option<int>)

  /** A datepicker's `{date, time}` pair: the calendar day may be null, the time never is. */
  datatype DateTimeParts = DateTimeParts(date: Option<int>, time: int)

  /** The `course_start` / `course_end` pair of a course form. */
  datatype CourseDates = CourseDates(courseStart: DateTimeParts, courseEnd: DateTimeParts)

  /** An entry of `duplicateAssignments`: the editable parts of one duplicated assignment.
      `availableCheck` is None while undefined. */
  datatype DuplicateAssignment = DuplicateAssignment(
    id: string, name: string,
    astart: DateTimeParts, aend: DateTimeParts,
    cstart: DateTimeParts, cend: DateTimeParts,
    availableCheck: Option<bool>)

  /** An entry of `duplicateCourse.assignments`: what is sent for one assignment. */
  datatype AssignmentSubmit = AssignmentSubmit(id: string,
                                               answerStart: int, answerEnd: int,
                                               compareStart: Option<int>, compareEnd: Option<int>)

  /** What `duplicate` and `save` report: success, or the error the toaster shows. */
  datatype Verdict =
    | Accepted
    | CoursePeriodConflict
    | AnswerPeriodError(name: string)
    | AnswerCompareOverlap(name: string)
    | ComparePeriodError(name: string)

  /** Default time parts: `new Date().setHours(0, 0, 0, 0)` and `setHours(23, 59, 0, 0)`. */
  function StartOfDayDefault(now: int): int { AtClock(now, 0, 0) }
  function EndOfDayDefault(now: int): int { AtClock(now, 23, 59) }

  lemma DefaultClockTimes(now: int)
    ensures TimeOfDay(StartOfDayDefault(now)) == 0
    ensures TimeOfDay(EndOfDayDefault(now)) == 23 * HOUR + 59 * MINUTE
  {
    DayDecomposition(StartOfDayDefault(now), DayOf(now), 0);
    DayDecomposition(EndOfDayDefault(now), DayOf(now), 23 * HOUR + 59 * MINUTE);
  }

  /** `combineDateTime(parts)`: a null date is `new Date(null)`, the epoch's day. */
  function Combined(p: DateTimeParts): (r: int)
    ensures DayOf(r) == DayOf(p.date.GetOr(0)) && TimeOfDay(r) == TimeOfDay(p.time)
  {
    CombineDateTime(p.date.GetOr(0), p.time)
  }

  /** A course boundary: combined when its date is set, null otherwise. */
  function CombinedOrNull(p: DateTimeParts): (r: Option<int>)
    ensures r.Some? <==> p.date.Some?
    ensures r.Some? ==> DayOf(r.value) == DayOf(p.date.value) && TimeOfDay(r.value) == TimeOfDay(p.time)
  {
    if p.date.Some? then Some(Combined(p)) else None
  }

  /** The course-period rule: both ends set and start strictly after end; equal is allowed. */
  predicate PeriodConflict(start: Option<int>, end: Option<int>): (conflict: bool)
    ensures conflict ==> start.Some? && end.Some?
    ensures start.Some? && start == end ==> !conflict
  {
    start.Some? && end.Some? && start.value > end.value
  }

  // ---------------------------------------------------------------------------
  // Anchor selection

  /** Week start of an assignment's answer start. */
  function AnswerWeekStart(a: Assignment): int {
    StartOfIsoWeek(a.answerStart)
  }

  /** The running minimum of answer-start week starts, as the `forEach` computes it. */
  function MinAnswerWeekStart(originals: seq<Assignment>): (m: int)
    requires |originals| > 0
    ensures forall i :: 0 <= i < |originals| ==> m <= AnswerWeekStart(originals[i])
    ensures exists i :: 0 <= i < |originals| && m == AnswerWeekStart(originals[i])
  {
    if |originals| == 1 then AnswerWeekStart(originals[0])
    else
      var rest := MinAnswerWeekStart(originals[..|originals| - 1]);
      var last := AnswerWeekStart(originals[|originals| - 1]);
      assert forall i :: 0 <= i < |originals| - 1 ==> originals[i] == originals[..|originals| - 1][i];
      if last < rest then last else rest
  }

  /** `startPoint`: the week start of the course start, else the earliest answer-start
      week start, else nothing. */
  function StartPoint(course: Course, originals: seq<Assignment>): (p: Option<int>)
    ensures p.Some? <==> course.startDate.Some? || |originals| > 0
    ensures course.startDate.Some? ==> p == Some(StartOfIsoWeek(course.startDate.value))
    ensures course.startDate.None? && p.Some? ==>
              (forall i :: 0 <= i < |originals| ==> p.value <= AnswerWeekStart(originals[i])) &&
              (exists i :: 0 <= i < |originals| && p.value == AnswerWeekStart(originals[i]))
    ensures p.Some? ==> TimeOfDay(p.value) == 0 && Weekday(p.value) == 0
  {
    if course.startDate.Some? then Some(StartOfIsoWeek(course.startDate.value))
    else if |originals| > 0 then
      Some(MinAnswerWeekStart(originals))
    else None
  }

  /** The one week delta of a rebase. */
  function RebaseDelta(proposedStart: Option<int>, course: Course, originals: seq<Assignment>, now: int): (k: int)
    ensures var anchor := StartPoint(course, originals).GetOr(now);
            k * WEEK <= proposedStart.GetOr(now) - anchor < (k + 1) * WEEK
  {
    WeeksDelta(proposedStart, StartPoint(course, originals), now)
  }

  // ---------------------------------------------------------------------------
  // Rebase

  /** One boundary: the date part is the source moved by `delta` weeks, the time part is
      the source instant itself. */
  function ShiftedParts(t: int, delta: int, now: int): DateTimeParts {
    DateTimeParts(Some(ShiftWeeks(Some(t), Some(delta), now)), t)
  }

  /** The duplicate built for one original assignment. */
  function RebaseAssignment(a: Assignment, delta: int, now: int): (r: DuplicateAssignment)
    ensures r.id == a.id && r.name == a.name
    ensures r.astart.date.Some? && r.aend.date.Some?
    ensures r.cstart.date.Some? <==> a.compareStart.Some?
    ensures r.cend.date.Some? <==> a.compareEnd.Some?
    ensures r.availableCheck == Some(true) <==> a.compareStart.Some? && a.compareEnd.Some?
    ensures r.availableCheck != Some(true) ==> r.availableCheck.None?
    ensures a.compareStart.None? ==> TimeOfDay(r.cstart.time) == 0
  {
    DefaultClockTimes(now);
    DuplicateAssignment(
      a.id, a.name,
      ShiftedParts(a.answerStart, delta, now),
      ShiftedParts(a.answerEnd, delta, now),
      if a.compareStart.Some? then ShiftedParts(a.compareStart.value, delta, now)
      else DateTimeParts(None, StartOfDayDefault(now)),
      if a.compareEnd.Some? then ShiftedParts(a.compareEnd.value, delta, now)
      else DateTimeParts(None, EndOfDayDefault(now)),
      if a.compareStart.Some? && a.compareEnd.Some? then Some(true) else None)
  }

  /** The whole duplicate list, in source order. */
  function Rebase(originals: seq<Assignment>, delta: int, now: int): (ds: seq<DuplicateAssignment>)
    ensures |ds| == |originals|
    ensures forall i :: 0 <= i < |originals| ==> ds[i] == RebaseAssignment(originals[i], delta, now)
  {
    seq(|originals|, i requires 0 <= i < |originals| => RebaseAssignment(originals[i], delta, now))
  }

  /** A shifted boundary combines to the source instant moved by `delta` whole weeks. */
  lemma ShiftedPartsCombine(t: int, delta: int, now: int)
    ensures Combined(ShiftedParts(t, delta, now)) == t + delta * WEEK
    ensures ShiftedParts(t, delta, now).time == t
  {
    var s := ShiftWeeks(Some(t), Some(delta), now);
    DayDecomposition(t + delta * WEEK, DayOf(s), TimeOfDay(t));
  }

  /** What a rebased assignment holds, boundary by boundary. */
  lemma RebasedAssignmentBoundaries(a: Assignment, delta: int, now: int)
    ensures var r := RebaseAssignment(a, delta, now);
      && r.id == a.id && r.name == a.name
      && Combined(r.astart) == a.answerStart + delta * WEEK && r.astart.time == a.answerStart
      && Combined(r.aend) == a.answerEnd + delta * WEEK && r.aend.time == a.answerEnd
      && (r.cstart.date.Some? <==> a.compareStart.Some?)
      && (r.cend.date.Some? <==> a.compareEnd.Some?)
      && (a.compareStart.Some? ==>
            Combined(r.cstart) == a.compareStart.value + delta * WEEK && r.cstart.time == a.compareStart.value)
      && (a.compareEnd.Some? ==>
            Combined(r.cend) == a.compareEnd.value + delta * WEEK && r.cend.time == a.compareEnd.value)
      && (r.availableCheck == Some(true) <==> a.compareStart.Some? && a.compareEnd.Some?)
      && (r.availableCheck != Some(true) ==> r.availableCheck.None?)
  {
    ShiftedPartsCombine(a.answerStart, delta, now);
    ShiftedPartsCombine(a.answerEnd, delta, now);
    if a.compareStart.Some? { ShiftedPartsCombine(a.compareStart.value, delta, now); }
    if a.compareEnd.Some? { ShiftedPartsCombine(a.compareEnd.value, delta, now); }
  }

  /** Every shifted instant moves by the same amount, so differences between any two answer
      boundaries of the list are those of the source. */
  lemma RebaseKeepsDifferences(originals: seq<Assignment>, delta: int, now: int, i: nat, j: nat)
    requires i < |originals| && j < |originals|
    ensures var ds := Rebase(originals, delta, now);
      && Combined(ds[i].astart) - Combined(ds[j].astart) == originals[i].answerStart - originals[j].answerStart
      && Combined(ds[i].aend) - Combined(ds[j].astart) == originals[i].answerEnd - originals[j].answerStart
      && Combined(ds[i].aend) - Combined(ds[j].aend) == originals[i].answerEnd - originals[j].answerEnd
  {
    RebasedAssignmentBoundaries(originals[i], delta, now);
    RebasedAssignmentBoundaries(originals[j], delta, now);
  }

  /** A proposed start anywhere in the week that begins on Monday `m` puts every rebased
      boundary as far after `m` as its source is after the anchor: the day offsets into
      the schedule are kept, whichever day of that week is proposed. */
  lemma RebaseIntoProposedWeek(course: Course, originals: seq<Assignment>, proposed: int, now: int, i: nat)
    requires StartPoint(course, originals).Some? && i < |originals|
    ensures var m := StartOfIsoWeek(proposed);
      var anchor := StartPoint(course, originals).value;
      var a := originals[i];
      var d := Rebase(originals, RebaseDelta(Some(proposed), course, originals, now), now)[i];
      && Combined(d.astart) - m == a.answerStart - anchor
      && Combined(d.aend) - m == a.answerEnd - anchor
      && (a.compareStart.Some? ==> Combined(d.cstart) - m == a.compareStart.value - anchor)
      && (a.compareEnd.Some? ==> Combined(d.cend) - m == a.compareEnd.value - anchor)
  {
    var m := StartOfIsoWeek(proposed);
    var anchor := StartPoint(course, originals).value;
    DeltaToWeekOfProposedStart(proposed, m, anchor, now);
    RebasedAssignmentBoundaries(originals[i], RebaseDelta(Some(proposed), course, originals, now), now);
  }

  // ---------------------------------------------------------------------------
  // Validation and normalisation

  predicate ComparisonEnabled(d: DuplicateAssignment) {
    d.availableCheck == Some(true)
  }

  /** `assignment_submit`: all four boundaries combined, the compare ones nulled when the
      comparison period is not enabled. */
  function SubmissionOf(d: DuplicateAssignment): (s: AssignmentSubmit)
    ensures s.id == d.id
    ensures DayOf(s.answerStart) == DayOf(d.astart.date.GetOr(0)) && TimeOfDay(s.answerStart) == TimeOfDay(d.astart.time)
    ensures DayOf(s.answerEnd) == DayOf(d.aend.date.GetOr(0)) && TimeOfDay(s.answerEnd) == TimeOfDay(d.aend.time)
    ensures (s.compareStart.Some? <==> ComparisonEnabled(d)) && (s.compareEnd.Some? <==> ComparisonEnabled(d))
    ensures s.compareStart.Some? ==>
              DayOf(s.compareStart.value) == DayOf(d.cstart.date.GetOr(0)) &&
              TimeOfDay(s.compareStart.value) == TimeOfDay(d.cstart.time)
    ensures s.compareEnd.Some? ==>
              DayOf(s.compareEnd.value) == DayOf(d.cend.date.GetOr(0)) &&
              TimeOfDay(s.compareEnd.value) == TimeOfDay(d.cend.time)
  {
    AssignmentSubmit(d.id, Combined(d.astart), Combined(d.aend),
                     if ComparisonEnabled(d) then Some(Combined(d.cstart)) else None,
                     if ComparisonEnabled(d) then Some(Combined(d.cend)) else None)
  }

  /** The submissions of a list of duplicates, in order. */
  function Submissions(ds: seq<DuplicateAssignment>): (ss: seq<AssignmentSubmit>)
    ensures |ss| == |ds|
    ensures forall i :: 0 <= i < |ds| ==> ss[i] == SubmissionOf(ds[i]) && ss[i].id == ds[i].id
  {
    seq(|ds|, i requires 0 <= i < |ds| => SubmissionOf(ds[i]))
  }

  /** The three per-assignment checks, in the source's order. */
  function CheckAssignment(d: DuplicateAssignment): (v: Verdict)
    ensures v == Accepted <==> WellFormedSubmission(SubmissionOf(d))
    ensures v != Accepted ==> !v.CoursePeriodConflict? && v.name == d.name
    ensures var s := SubmissionOf(d);
            && (v.AnswerPeriodError? <==> s.answerStart >= s.answerEnd)
            && (v.AnswerCompareOverlap? <==>
                  s.answerStart < s.answerEnd && s.compareStart.Some? && s.answerStart > s.compareStart.value)
            && (v.ComparePeriodError? <==>
                  s.answerStart < s.answerEnd && s.compareStart.Some? && s.answerStart <= s.compareStart.value &&
                  s.compareStart.value >= s.compareEnd.value)
  {
    var s := Combined(d.astart);
    if s >= Combined(d.aend) then AnswerPeriodError(d.name)
    else if ComparisonEnabled(d) && s > Combined(d.cstart) then AnswerCompareOverlap(d.name)
    else if ComparisonEnabled(d) && Combined(d.cstart) >= Combined(d.cend) then ComparePeriodError(d.name)
    else Accepted
  }

  /** Index of the first assignment that fails its checks, or the length when none does. */
  function FirstRejected(ds: seq<DuplicateAssignment>): (k: nat)
    ensures k <= |ds|
    ensures forall j :: 0 <= j < k ==> CheckAssignment(ds[j]) == Accepted
    ensures k < |ds| ==> CheckAssignment(ds[k]) != Accepted
  {
    if |ds| == 0 then 0
    else if CheckAssignment(ds[0]) != Accepted then 0
    else
      var k := 1 + FirstRejected(ds[1..]);
      assert forall j :: 1 <= j < |ds| ==> ds[j] == ds[1..][j - 1];
      k
  }

  /** The verdict of `duplicate`: the course period first, then the first failing assignment. */
  function Validate(dates: CourseDates, ds: seq<DuplicateAssignment>): (v: Verdict)
    ensures v == CoursePeriodConflict <==>
              PeriodConflict(CombinedOrNull(dates.courseStart), CombinedOrNull(dates.courseEnd))
    ensures v != Accepted && v != CoursePeriodConflict ==>
              exists i :: 0 <= i < |ds| && v == CheckAssignment(ds[i]) && v.name == ds[i].name &&
                          forall j :: 0 <= j < i ==> CheckAssignment(ds[j]) == Accepted
  {
    if PeriodConflict(CombinedOrNull(dates.courseStart), CombinedOrNull(dates.courseEnd)) then
      CoursePeriodConflict
    else if FirstRejected(ds) < |ds| then CheckAssignment(ds[FirstRejected(ds)])
    else Accepted
  }

  /** An independent statement of a well-ordered submission: a non-empty answer period,
      and a compare period either wholly absent or starting no earlier than the answer
      period and non-empty. */
  predicate WellFormedSubmission(s: AssignmentSubmit) {
    && s.answerStart < s.answerEnd
    && (s.compareStart.Some? <==> s.compareEnd.Some?)
    && (s.compareStart.Some? ==>
          s.answerStart <= s.compareStart.value < s.compareEnd.value)
  }

  /** `duplicate` accepts exactly when the course period is fine and every submission is
      well formed; a rejection names the first failing assignment. */
  lemma ValidateAcceptsExactlyWellFormed(dates: CourseDates, ds: seq<DuplicateAssignment>)
    ensures Validate(dates, ds) == Accepted <==>
              !PeriodConflict(CombinedOrNull(dates.courseStart), CombinedOrNull(dates.courseEnd)) &&
              forall i :: 0 <= i < |ds| ==> WellFormedSubmission(SubmissionOf(ds[i]))
  {
  }

  /** Source-side ordering of an assignment's windows; the compare window only counts
      when both of its ends are present, as `availableCheck` is then set. */
  predicate SourceWindowsOrdered(a: Assignment) {
    && a.answerStart < a.answerEnd
    && (a.compareStart.Some? && a.compareEnd.Some? ==>
          a.answerStart <= a.compareStart.value < a.compareEnd.value)
  }

  /** The submission of a rebased assignment is the source moved by `delta` weeks. */
  lemma RebasedSubmissionIsShift(a: Assignment, delta: int, now: int)
    ensures var both := a.compareStart.Some? && a.compareEnd.Some?;
      SubmissionOf(RebaseAssignment(a, delta, now)) ==
        AssignmentSubmit(a.id, a.answerStart + delta * WEEK, a.answerEnd + delta * WEEK,
                         if both then Some(a.compareStart.value + delta * WEEK) else None,
                         if both then Some(a.compareEnd.value + delta * WEEK) else None)
  {
    RebasedAssignmentBoundaries(a, delta, now);
  }

  /** Rebasing neither repairs nor breaks an assignment: the rebased duplicate passes its
      checks exactly when the source windows are ordered, whatever the delta. */
  lemma RebasePreservesOrdering(a: Assignment, delta: int, now: int)
    ensures CheckAssignment(RebaseAssignment(a, delta, now)) == Accepted <==> SourceWindowsOrdered(a)
  {
    RebasedSubmissionIsShift(a, delta, now);
  }

  // ---------------------------------------------------------------------------
  // Seeding the duplicate course period

  /** The course dates `selectDuplicateCourse` proposes: the original start moved into the
      current week (and the end by the same weeks, only when the start is set); the time
      parts keep their 00:00 and 23:59 defaults. */
  function SeedCourseDates(original: Course, now: int): (dates: CourseDates)
    ensures dates.courseStart.date.Some? <==> original.startDate.Some?
    ensures dates.courseEnd.date.Some? <==> original.startDate.Some? && original.endDate.Some?
    ensures TimeOfDay(dates.courseStart.time) == 0
    ensures TimeOfDay(dates.courseEnd.time) == 23 * HOUR + 59 * MINUTE
    ensures dates.courseStart.date.Some? ==>
              now - WEEK < dates.courseStart.date.value <= now &&
              Weekday(dates.courseStart.date.value) == Weekday(original.startDate.value)
  {
    DefaultClockTimes(now);
    var k := WeeksDelta(Some(now), original.startDate, now);
    var start := if original.startDate.Some? then Some(ShiftWeeks(original.startDate, Some(k), now)) else None;
    var end := if original.startDate.Some? && original.endDate.Some?
               then Some(ShiftWeeks(original.endDate, Some(k), now)) else None;
    CourseDates(DateTimeParts(start, StartOfDayDefault(now)), DateTimeParts(end, EndOfDayDefault(now)))
  }

  /** The seeded start is the original's weekday and clock in the week before `now`, and
      rebasing against it moves the assignments by the same weeks as the course. */
  lemma SeededStart(original: Course, originals: seq<Assignment>, now: int)
    requires original.startDate.Some?
    ensures var dates := SeedCourseDates(original, now);
      var s := original.startDate.value;
      var k := WeeksDelta(Some(now), Some(s), now);
      && dates.courseStart.date == Some(s + k * WEEK)
      && now - WEEK < dates.courseStart.date.value <= now
      && Weekday(dates.courseStart.date.value) == Weekday(s)
      && RebaseDelta(dates.courseStart.date, original, originals, now) == k
      && (original.endDate.Some? ==>
            && dates.courseEnd.date == Some(original.endDate.value + k * WEEK)
            && DayOf(dates.courseEnd.date.value) - DayOf(dates.courseStart.date.value)
               == DayOf(original.endDate.value) - DayOf(s))
  {
    var s := original.startDate.value;
    var k := WeeksDelta(Some(now), Some(s), now);
    SeededStartWithinWeekBeforeNow(s, now);
    DeltaFromOwnWeekStart(s, k, now);
  }

  /** The seeded course period conflicts exactly when both original ends are set and the
      original end falls on an earlier calendar day than the start: same-day ends pass,
      since the start time is 00:00 and the end time 23:59. */
  lemma SeededCoursePeriod(original: Course, now: int)
    ensures var dates := SeedCourseDates(original, now);
      PeriodConflict(CombinedOrNull(dates.courseStart), CombinedOrNull(dates.courseEnd)) <==>
        original.startDate.Some? && original.endDate.Some? &&
        DayOf(original.startDate.value) > DayOf(original.endDate.value)
  {
    DefaultClockTimes(now);
    var dates := SeedCourseDates(original, now);
    if original.startDate.Some? && original.endDate.Some? {
      var s, e := CombinedOrNull(dates.courseStart).value, CombinedOrNull(dates.courseEnd).value;
      assert DayOf(s) - DayOf(e) == DayOf(original.startDate.value) - DayOf(original.endDate.value);
      assert s == DayOf(s) * DAY && e == DayOf(e) * DAY + 23 * HOUR + 59 * MINUTE;
    }
  }

  /** Picking a course to duplicate and submitting the proposed schedule unchanged is
      accepted exactly when the original course days are in order and every original
      assignment's windows are. */
  lemma SeededDuplicateVerdict(original: Course, originals: seq<Assignment>, now: int)
    ensures var dates := SeedCourseDates(original, now);
      var delta := RebaseDelta(dates.courseStart.date, original, originals, now);
      Validate(dates, Rebase(originals, delta, now)) == Accepted <==>
        !(original.startDate.Some? && original.endDate.Some? &&
          DayOf(original.startDate.value) > DayOf(original.endDate.value)) &&
        forall i :: 0 <= i < |originals| ==> SourceWindowsOrdered(originals[i])
  {
    var dates := SeedCourseDates(original, now);
    var delta := RebaseDelta(dates.courseStart.date, original, originals, now);
    var ds := Rebase(originals, delta, now);
    SeededCoursePeriod(original, now);
    forall i | 0 <= i < |originals|
      ensures CheckAssignment(ds[i]) == Accepted <==> SourceWindowsOrdered(originals[i])
    {
      RebasePreservesOrdering(originals[i], delta, now);
    }
  }
}
