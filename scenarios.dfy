/** The duplication scenarios of the course module's test suite, stated on the
    model: a course anchored on its start date, one anchored on its earliest
    assignment, and the validation failures. */
module DuplicationScenarios {
  import opened Wrappers
  import opened Timeline
  import opened Schedule

  /** Day numbers since the epoch of the calendar days used below. */
  const Jan02_2017 := 17168  // a Monday
  const Mar06_2017 := 17231
  const Mar16_2017 := 17241
  const Mar17_2017 := 17242
  const Mar25_2017 := 17250
  const Apr09_2017 := 17265
  const Apr28_2017 := 17284

  function At(day: int, hours: int, minutes: int): int {
    day * DAY + hours * HOUR + minutes * MINUTE
  }

  function TestCourse(): Course {
    Course("1abcABC123-abcABC123_Z", "Another course", 2016, "Summer",
           Some(At(Jan02_2017, 23, 0)), Some(At(Apr28_2017, 23, 0)))
  }

  function TestAssignments(): seq<Assignment> {
    [ Assignment("1abcABC123-abcABC123_Z", "1234567",
                 At(Mar25_2017, 14, 0), At(Apr09_2017, 13, 59), None, None),
      Assignment("2abcABC123-abcABC123_Z", "1234567890",
                 At(Mar06_2017, 15, 0), At(Mar16_2017, 13, 59),
                 Some(At(Mar17_2017, 15, 0)), Some(At(Mar25_2017, 13, 59))) ]
  }

  lemma AtParts(day: int, hours: int, minutes: int)
    requires 0 <= hours < 24 && 0 <= minutes < 60
    ensures DayOf(At(day, hours, minutes)) == day
    ensures TimeOfDay(At(day, hours, minutes)) == hours * HOUR + minutes * MINUTE
  {
    DayDecomposition(At(day, hours, minutes), day, hours * HOUR + minutes * MINUTE);
  }

  /** Course anchored: whichever day of a week is proposed as the new start, every
      assignment boundary lands on that week's Monday plus its original day offset from
      the original start's Monday, at its original clock time; the compare window is set,
      and the comparison enabled, only for the assignment that had one. */
  lemma CourseAnchoredScenario(proposed: int, now: int)
    ensures var m := DayOf(StartOfIsoWeek(proposed));
      var ds := Rebase(TestAssignments(), RebaseDelta(Some(proposed), TestCourse(), TestAssignments(), now), now);
      && DayOf(Combined(ds[0].astart)) == m + 11 * 7 + 5 && TimeOfDay(Combined(ds[0].astart)) == 14 * HOUR
      && DayOf(Combined(ds[0].aend)) == m + 13 * 7 + 6 && TimeOfDay(Combined(ds[0].aend)) == 13 * HOUR + 59 * MINUTE
      && ds[0].availableCheck.None? && ds[0].cstart.date.None? && ds[0].cend.date.None?
      && DayOf(Combined(ds[1].astart)) == m + 9 * 7 && TimeOfDay(Combined(ds[1].astart)) == 15 * HOUR
      && DayOf(Combined(ds[1].aend)) == m + 10 * 7 + 3 && TimeOfDay(Combined(ds[1].aend)) == 13 * HOUR + 59 * MINUTE
      && ds[1].availableCheck == Some(true)
      && DayOf(Combined(ds[1].cstart)) == m + 10 * 7 + 4 && TimeOfDay(Combined(ds[1].cstart)) == 15 * HOUR
      && DayOf(Combined(ds[1].cend)) == m + 11 * 7 + 5 && TimeOfDay(Combined(ds[1].cend)) == 13 * HOUR + 59 * MINUTE
  {
    var originals := TestAssignments();
    var mInstant := StartOfIsoWeek(proposed);
    var m := DayOf(mInstant);
    DayDecomposition(mInstant, m, 0);
    AtParts(Jan02_2017, 23, 0);
    var anchor := StartOfIsoWeek(At(Jan02_2017, 23, 0));
    DayDecomposition(anchor, Jan02_2017, 0);
    var delta := RebaseDelta(Some(proposed), TestCourse(), originals, now);
    var ds := Rebase(originals, delta, now);
    RebaseIntoProposedWeek(TestCourse(), originals, proposed, now, 0);
    RebaseIntoProposedWeek(TestCourse(), originals, proposed, now, 1);
    RebasedAssignmentBoundaries(originals[0], delta, now);
    RebasedAssignmentBoundaries(originals[1], delta, now);
    AtParts(m + 82, 14, 0);
    AtParts(m + 97, 13, 59);
    AtParts(m + 63, 15, 0);
    AtParts(m + 73, 13, 59);
    AtParts(m + 74, 15, 0);
    AtParts(m + 82, 13, 59);
  }

  /** The seeded duplicate course ends 116 days after its seeded start, as the original does. */
  lemma SeededCourseEndScenario(now: int)
    ensures var dates := SeedCourseDates(TestCourse(), now);
      DayOf(dates.courseEnd.date.value) - DayOf(dates.courseStart.date.value) == 16 * 7 + 4
  {
    AtParts(Jan02_2017, 23, 0);
    AtParts(Apr28_2017, 23, 0);
    SeededStart(TestCourse(), TestAssignments(), now);
  }

  /** Assignment anchored: without a course start the anchor is the Monday of the earliest
      answer start (6 March 2017), not the week of the first assignment in the list. */
  lemma AssignmentAnchoredScenario()
    ensures StartPoint(TestCourse().(startDate := None, endDate := None), TestAssignments())
         == Some(Mar06_2017 * DAY)
  {
    AtParts(Mar25_2017, 14, 0);
    AtParts(Mar06_2017, 15, 0);
    DayDecomposition(StartOfIsoWeek(At(Mar25_2017, 14, 0)), Mar25_2017 - 5, 0);
    DayDecomposition(StartOfIsoWeek(At(Mar06_2017, 15, 0)), Mar06_2017, 0);
  }

  function Parts(t: int): DateTimeParts { DateTimeParts(Some(t), t) }

  function Candidate(astart: int, aend: int, cstart: int, cend: int, enabled: Option<bool>): DuplicateAssignment {
    DuplicateAssignment("a1", "Test Assignment", Parts(astart), Parts(aend), Parts(cstart), Parts(cend), enabled)
  }

  /** The validation failures of the test suite, and a stale compare window that is
      ignored and then cleared when the comparison is not enabled. */
  lemma ValidationScenarios(t: int, others: seq<DuplicateAssignment>)
    ensures Validate(CourseDates(Parts(t), Parts(t - DAY)), others) == CoursePeriodConflict
    ensures Validate(CourseDates(Parts(t), Parts(t)), []) == Accepted
    ensures Validate(CourseDates(Parts(t), Parts(t)), [Candidate(t + DAY, t, t + 2 * DAY, t + 3 * DAY, None)] + others)
         == AnswerPeriodError("Test Assignment")
    ensures Validate(CourseDates(Parts(t), Parts(t)), [Candidate(t, t + DAY, t - DAY, t + 3 * DAY, Some(true))] + others)
         == AnswerCompareOverlap("Test Assignment")
    ensures Validate(CourseDates(Parts(t), Parts(t)), [Candidate(t, t + DAY, t + DAY, t + DAY, Some(true))] + others)
         == ComparePeriodError("Test Assignment")
    ensures var stale := Candidate(t, t + DAY, t + 5 * DAY, t + 2 * DAY, Some(false));
      && Validate(CourseDates(Parts(t), Parts(t)), [stale]) == Accepted
      && SubmissionOf(stale).compareStart.None? && SubmissionOf(stale).compareEnd.None?
  {
    CombineSelf(t); CombineSelf(t - DAY); CombineSelf(t + DAY);
    CombineSelf(t + 2 * DAY); CombineSelf(t + 3 * DAY); CombineSelf(t + 5 * DAY);
  }
}
