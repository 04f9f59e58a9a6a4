/** Calendar arithmetic on millisecond timestamps. Days are uniform 86 400 000 ms intervals in one
    fixed time zone without daylight-saving changes; this stands for date-fns `format(d,'yyyy-MM-dd')`,
    `startOfDay`, `Date.prototype.toDateString` and `getDay`. */
module Time {

  const MsPerDay: int := 86_400_000

  /** The calendar day a timestamp falls on (`/` rounds down for a positive divisor). */
  function DayIndex(t: int): int
  {
    t / MsPerDay
  }

  /** date-fns `startOfDay`: midnight of the day of `t`. */
  function StartOfDay(t: int): (r: int)
    ensures r <= t < r + MsPerDay
    ensures r == DayIndex(t) * MsPerDay
  {
    t - t % MsPerDay
  }

  /** `Date.prototype.getDay`: 0 is Sunday; day 0 of the epoch (1 January 1970) was a Thursday. */
  function Weekday(t: int): (r: int)
    ensures 0 <= r < 7
  {
    (DayIndex(t) + 4) % 7
  }

  /** A timestamp lies on day `d` exactly when it lies between that day's first and last millisecond. */
  lemma DayIndexBounds(t: int, d: int)
    ensures DayIndex(t) == d <==> d * MsPerDay <= t <= d * MsPerDay + MsPerDay - 1
  {
  }

  /** Remainders modulo 7 go up by one with their dividend, wrapping from 6 to 0, and repeat every 7. */
  lemma ModSevenStep(a: int)
    ensures (a + 1) % 7 == (a % 7 + 1) % 7
    ensures (a + 7) % 7 == a % 7
  {
    var q := a / 7;
    assert a == 7 * q + a % 7;
    if a % 7 < 6 {
      assert a + 1 == 7 * q + (a % 7 + 1);
    } else {
      assert a + 1 == 7 * (q + 1);
    }
    assert a + 7 == 7 * (q + 1) + a % 7;
  }

  /** The day after a Saturday is a Sunday; otherwise the weekday number goes up by one. */
  lemma WeekdayStep(t: int, u: int)
    requires DayIndex(u) == DayIndex(t) + 1
    ensures Weekday(u) == (Weekday(t) + 1) % 7
  {
    ModSevenStep(DayIndex(t) + 4);
  }
}
