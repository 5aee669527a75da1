/**
 * Calendar days as integers. Day 0 is 1970-01-01, a Thursday; the weekday
 * numbering is JavaScript's `Date#getDay`: 0 = Sunday, 1 = Monday, ... 6 = Saturday.
 */
module Calendar {

  type Day = int

  function Weekday(d: Day): (w: int)
    ensures 0 <= w < 7
  {
    (d + 4) % 7
  }

  /** Moving k days forward moves the weekday k steps round the week. */
  lemma WeekdayAfter(d: Day, k: int)
    ensures Weekday(d + k) == (Weekday(d) + k) % 7
  {
    var q := (d + 4) / 7;
    assert d + 4 == 7 * q + Weekday(d);
    assert d + k + 4 == 7 * q + (Weekday(d) + k);
  }

  lemma WeekdayWeekLater(d: Day, weeks: int)
    ensures Weekday(d + 7 * weeks) == Weekday(d)
  {
    WeekdayAfter(d, 7 * weeks);
    assert (Weekday(d) + 7 * weeks) % 7 == Weekday(d);
  }
}
