/** The course edit form: loading a course's dates into the datepickers and
    saving them back under the course-period rule. */
module CourseEditing {
  import opened Wrappers
  import opened Timeline
  import opened Schedule

  /** The datepicker parts `edit` loads from a fetched course: a null date stays null, and
      the time part is `new Date(start_date)` (the epoch when the date is null). */
  function LoadedDates(c: Course): (dates: CourseDates)
    ensures CombinedOrNull(dates.courseStart) == c.startDate
    ensures CombinedOrNull(dates.courseEnd) == c.endDate
  {
    CourseDates(DateTimeParts(c.startDate, c.startDate.GetOr(0)),
                DateTimeParts(c.endDate, c.endDate.GetOr(0)))
  }

  class CourseEditor {
    var submitted: bool
    var course: Course
    var dates: CourseDates

    constructor (now: int)
      ensures !submitted
      ensures dates == CourseDates(DateTimeParts(None, StartOfDayDefault(now)),
                                   DateTimeParts(None, EndOfDayDefault(now)))
    {
      submitted := false;
      course := Course("", "", 0, "", None, None);
      dates := CourseDates(DateTimeParts(None, StartOfDayDefault(now)),
                           DateTimeParts(None, EndOfDayDefault(now)));
    }

    /** `new`: the course year is the current year. */
    method New(year: int)
      modifies this`course
      ensures course == old(course).(year := year)
    {
      course := course.(year := year);
    }

    /** `edit`: the fetched course and its dates loaded into the form. */
    method Edit(fetched: Course)
      modifies this`course, this`dates
      ensures course == fetched && dates == LoadedDates(fetched)
    {
      dates := CourseDates(DateTimeParts(fetched.startDate, fetched.startDate.GetOr(0)),
                           DateTimeParts(fetched.endDate, fetched.endDate.GetOr(0)));
      course := fetched;
    }

    /** `save`: combine the set dates, reject a start after the end; the request itself is
        left to the caller. */
    method Save() returns (verdict: Verdict)
      modifies this`submitted, this`course
      ensures var start := CombinedOrNull(dates.courseStart);
              var end := CombinedOrNull(dates.courseEnd);
              && course == old(course).(startDate := start, endDate := end)
              && verdict == (if PeriodConflict(start, end) then CoursePeriodConflict else Accepted)
      ensures submitted <==> verdict == Accepted
    {
      submitted := true;
      if dates.courseStart.date.Some? {
        course := course.(startDate := Some(Combined(dates.courseStart)));
      } else {
        course := course.(startDate := None);
      }
      if dates.courseEnd.date.Some? {
        course := course.(endDate := Some(Combined(dates.courseEnd)));
      } else {
        course := course.(endDate := None);
      }
      if course.startDate.Some? && course.endDate.Some? && course.startDate.value > course.endDate.value {
        submitted := false;
        verdict := CoursePeriodConflict;
        return;
      }
      verdict := Accepted;
    }
  }

  /** Loading a course and saving it unchanged gives back its own dates, and is rejected
      exactly when its start is after its end. */
  lemma EditThenSaveRoundTrip(c: Course)
    ensures var dates := LoadedDates(c);
      && CombinedOrNull(dates.courseStart) == c.startDate
      && CombinedOrNull(dates.courseEnd) == c.endDate
      && (PeriodConflict(CombinedOrNull(dates.courseStart), CombinedOrNull(dates.courseEnd)) <==>
            c.startDate.Some? && c.endDate.Some? && c.startDate.value > c.endDate.value)
  {
  }
}
