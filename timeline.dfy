/** Temporal primitives of the course module: instants are integer
    milliseconds on one fixed-zone timeline whose day 0 (the epoch) is a
    Thursday. Weeks are seven whole days. */
module Timeline {
  import opened Wrappers

  const HOUR: int := 3600000
  const MINUTE: int := 60000
  const DAY: int := 86400000
  const WEEK: int := 7 * DAY

  /** Calendar day number of an instant (floor, so instants before the epoch work too). */
  function DayOf(t: int): int {
    t / DAY
  }

  /** Milliseconds since midnight. */
  function TimeOfDay(t: int): (r: int)
    ensures 0 <= r < DAY
    ensures t == DayOf(t) * DAY + r
  {
    t % DAY
  }

  /** ISO weekday with Monday = 0 ... Sunday = 6. */
  function Weekday(t: int): (w: int)
    ensures 0 <= w < 7
  {
    (DayOf(t) + 3) % 7
  }

  /** `date.setHours(h, m, 0, 0)`: midnight of the day of `t` plus a clock time. */
  function AtClock(t: int, hours: int, minutes: int): int {
    DayOf(t) * DAY + hours * HOUR + minutes * MINUTE
  }

  /** If `t == q * DAY + r` with `r` a time of day, then `q` is the day of `t` and `r` its time. */
  lemma DayDecomposition(t: int, q: int, r: int)
    requires 0 <= r < DAY && t == q * DAY + r
    ensures DayOf(t) == q && TimeOfDay(t) == r
  {
  }

  /** moment's `startOf('isoWeek')`: the Monday 00:00 on or before `t`. */
  function StartOfIsoWeek(t: int): (r: int)
    ensures r <= t < r + WEEK
    ensures TimeOfDay(r) == 0 && Weekday(r) == 0
    ensures DayOf(t) - DayOf(r) == Weekday(t)
  {
    var d := DayOf(t);
    var r := (d - Weekday(t)) * DAY;
    DayDecomposition(r, d - Weekday(t), 0);
    r
  }

  /** A week start is its own week start. */
  lemma StartOfIsoWeekIdempotent(t: int)
    ensures StartOfIsoWeek(StartOfIsoWeek(t)) == StartOfIsoWeek(t)
  {
    var m := StartOfIsoWeek(t);
    assert DayOf(m) - DayOf(StartOfIsoWeek(m)) == Weekday(m) == 0;
    DayDecomposition(m, DayOf(m), 0);
    DayDecomposition(StartOfIsoWeek(m), DayOf(m), 0);
  }

  /** Two week starts are a whole number of weeks apart. */
  lemma WeekStartsWholeWeeksApart(m: int, a: int)
    requires TimeOfDay(m) == 0 && Weekday(m) == 0
    requires TimeOfDay(a) == 0 && Weekday(a) == 0
    ensures (m - a) % WEEK == 0
  {
    var dm, da := DayOf(m), DayOf(a);
    var pm, pa := (dm + 3) / 7, (da + 3) / 7;
    assert dm + 3 == pm * 7;
    assert da + 3 == pa * 7;
    assert m - a == (pm - pa) * WEEK;
  }

  /** `combineDateTime`: the calendar day of `date` with the clock time of `time`. */
  function CombineDateTime(date: int, time: int): (r: int)
    ensures DayOf(r) == DayOf(date) && TimeOfDay(r) == TimeOfDay(time)
  {
    var r := DayOf(date) * DAY + TimeOfDay(time);
    DayDecomposition(r, DayOf(date), TimeOfDay(time));
    r
  }

  /** Combining an instant with itself gives it back. */
  lemma CombineSelf(t: int)
    ensures CombineDateTime(t, t) == t
  {
  }

  /** Combining only depends on the day of the date part and the time of day of the time part. */
  lemma CombineDependsOnDayAndClock(d1: int, t1: int, d2: int, t2: int)
    requires DayOf(d1) == DayOf(d2) && TimeOfDay(t1) == TimeOfDay(t2)
    ensures CombineDateTime(d1, t1) == CombineDateTime(d2, t2)
  {
  }

  /** `getWeeksDelta`: whole weeks from `second` to `first`, rounded toward minus
      infinity; an absent argument stands for `now`. */
  function WeeksDelta(first: Option<int>, second: Option<int>, now: int): (k: int)
    ensures k * WEEK <= first.GetOr(now) - second.GetOr(now) < (k + 1) * WEEK
  {
    (first.GetOr(now) - second.GetOr(now)) / WEEK
  }

  /** `getNewDuplicateDate`: `original` (or `now`) moved by a number of weeks (absent: 0). */
  function ShiftWeeks(original: Option<int>, weeks: Option<int>, now: int): (r: int)
    ensures r - original.GetOr(now) == weeks.GetOr(0) * WEEK
    ensures TimeOfDay(r) == TimeOfDay(original.GetOr(now))
    ensures Weekday(r) == Weekday(original.GetOr(now))
    ensures DayOf(r) == DayOf(original.GetOr(now)) + 7 * weeks.GetOr(0)
  {
    var t := original.GetOr(now);
    var n := weeks.GetOr(0);
    DayDecomposition(t + n * WEEK, DayOf(t) + 7 * n, TimeOfDay(t));
    t + n * WEEK
  }

  /** Shifting by zero weeks, or by a missing week count, changes nothing;
      shifting by `n` and then by `m` is shifting by `n + m`. */
  lemma ShiftIdentityAndComposition(x: int, n: int, m: int, now: int)
    ensures ShiftWeeks(Some(x), Some(0), now) == x
    ensures ShiftWeeks(Some(x), None, now) == x
    ensures ShiftWeeks(Some(ShiftWeeks(Some(x), Some(n), now)), Some(m), now)
         == ShiftWeeks(Some(x), Some(n + m), now)
  {
  }

  /** Floor, not truncation: swapping the arguments negates the delta when the
      difference is a whole number of weeks and gives one less otherwise. */
  lemma WeeksDeltaAntisymmetry(a: int, b: int, now: int)
    ensures WeeksDelta(Some(a), Some(b), now) + WeeksDelta(Some(b), Some(a), now)
         == if (a - b) % WEEK == 0 then 0 else -1
  {
    var k, j := WeeksDelta(Some(a), Some(b), now), WeeksDelta(Some(b), Some(a), now);
    if (a - b) % WEEK == 0 {
      assert a - b == k * WEEK;
      assert -k * WEEK <= b - a < (-k + 1) * WEEK;
    } else {
      assert k * WEEK < a - b;
      assert (-k - 1) * WEEK < b - a < -k * WEEK;
    }
  }

  /** The seeded start of `selectDuplicateCourse`: the original start moved by
      `WeeksDelta(now, start)` weeks lands in the last week up to `now`. */
  lemma SeededStartWithinWeekBeforeNow(start: int, now: int)
    ensures var k := WeeksDelta(Some(now), Some(start), now);
            now - WEEK < ShiftWeeks(Some(start), Some(k), now) <= now
  {
  }

  /** A proposed start inside the week that begins on Monday `m`, measured
      against a Monday `anchor`, yields exactly the weeks from `anchor` to `m`. */
  lemma DeltaToWeekOfProposedStart(proposed: int, m: int, anchor: int, now: int)
    requires StartOfIsoWeek(proposed) == m
    requires TimeOfDay(anchor) == 0 && Weekday(anchor) == 0
    ensures WeeksDelta(Some(proposed), Some(anchor), now) * WEEK == m - anchor
  {
    WeekStartsWholeWeeksApart(m, anchor);
    var q := (m - anchor) / WEEK;
    assert m - anchor == q * WEEK;
    var k := WeeksDelta(Some(proposed), Some(anchor), now);
    assert q * WEEK <= proposed - anchor < (q + 1) * WEEK;
  }

  /** Measuring an instant `k` weeks after `t` against the week start of `t` gives `k`. */
  lemma DeltaFromOwnWeekStart(t: int, k: int, now: int)
    ensures WeeksDelta(Some(ShiftWeeks(Some(t), Some(k), now)), Some(StartOfIsoWeek(t)), now) == k
  {
    var d := WeeksDelta(Some(ShiftWeeks(Some(t), Some(k), now)), Some(StartOfIsoWeek(t)), now);
    var a := StartOfIsoWeek(t);
    assert k * WEEK <= t + k * WEEK - a < (k + 1) * WEEK;
  }

  /** Moving an instant by whole weeks moves its week start by the same weeks. */
  lemma StartOfIsoWeekShift(t: int, k: int)
    ensures StartOfIsoWeek(t + k * WEEK) == StartOfIsoWeek(t) + k * WEEK
  {
    var u := ShiftWeeks(Some(t), Some(k), t);
    assert u == t + k * WEEK;
  }

  /** The seeded start falls in the ISO week of `now` exactly when the original start's
      weekday and clock time come no later in their week than `now`'s do; otherwise it is
      in the week before. */
  lemma SeededStartIsoWeek(start: int, now: int)
    ensures var k := WeeksDelta(Some(now), Some(start), now);
      var seeded := ShiftWeeks(Some(start), Some(k), now);
      var inWeek := start - StartOfIsoWeek(start);
      var nowInWeek := now - StartOfIsoWeek(now);
      && (inWeek <= nowInWeek ==> StartOfIsoWeek(seeded) == StartOfIsoWeek(now))
      && (inWeek > nowInWeek ==> StartOfIsoWeek(seeded) == StartOfIsoWeek(now) - WEEK)
  {
    var k := WeeksDelta(Some(now), Some(start), now);
    var seeded := ShiftWeeks(Some(start), Some(k), now);
    StartOfIsoWeekShift(start, k);
    SeededStartWithinWeekBeforeNow(start, now);
    var ms, mn := StartOfIsoWeek(seeded), StartOfIsoWeek(now);
    WeekStartsWholeWeeksApart(ms, mn);
    var j := (ms - mn) / WEEK;
    assert ms - mn == j * WEEK;
    assert seeded - ms == start - StartOfIsoWeek(start);
  }
}
