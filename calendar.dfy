/** Calendar days as the screens compare them. An instant is a count of
    milliseconds in local time; the calendar day of an instant is the number
    of whole days before it. Time zones and the date library's parsing and
    formatting are outside this model. */
module Calendar {

  /** Milliseconds in one day. */
  const DayMs: int := 24 * 60 * 60 * 1000

  /** The calendar day on which instant `t` falls. */
  function DayOf(t: int): (d: int)
    ensures d * DayMs <= t < (d + 1) * DayMs
  {
    t / DayMs
  }

  /** The last millisecond of the day of `t` (`endOf('day')`). */
  function EndOfDay(t: int): (e: int)
    ensures DayOf(e) == DayOf(t)
    ensures t <= e
    ensures forall u :: DayOf(u) == DayOf(t) ==> u <= e
  {
    DayOf(t) * DayMs + DayMs - 1
  }

  /** `isSame(other, 'day')`: the two instants fall on one calendar day. */
  predicate SameDay(a: int, b: int)
    ensures SameDay(a, b) ==> -DayMs < a - b < DayMs
    ensures EndOfDay(a) < b ==> !SameDay(a, b)
  {
    DayOf(a) == DayOf(b)
  }

  /** The day of an instant bounds it: an instant on an earlier day is
      strictly before it, an instant on a later day strictly after. */
  lemma DayOrder(a: int, b: int)
    ensures DayOf(a) < DayOf(b) ==> a < b
  {
    if DayOf(a) < DayOf(b) {
      assert (DayOf(a) + 1) * DayMs <= DayOf(b) * DayMs;
    }
  }

  /** `endOf(day of date).isBefore(now)` holds exactly when the day of `date`
      is an earlier calendar day than the day of `now`. */
  lemma {:induction false} EndOfDayBefore(date: int, now: int)
    ensures EndOfDay(date) < now <==> DayOf(date) < DayOf(now)
  {
    var e := EndOfDay(date);
    if DayOf(date) < DayOf(now) {
      assert (DayOf(date) + 1) * DayMs <= DayOf(now) * DayMs;
    }
    if e < now {
      DayOrder(now, e);
    }
  }
}
