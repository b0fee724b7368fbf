/**
 * The part of Go's `time` package the tracker relies on.
 *
 * An instant is an integer number of nanoseconds on the local wall clock, counted from
 * 1970-01-01 00:00:00 local time; the local zone is taken to have a fixed offset (no
 * daylight-saving jumps), so a calendar day is exactly NsPerDay long and adding n calendar
 * days moves an instant by n whole days. A calendar day is the integer Day(t); its
 * "YYYY-MM-DD" rendering is a one-to-one function of that integer, so the day number
 * stands for the string wherever the source uses the string as a key.
 */
module Clock {

  const NsPerSecond: int := 1_000_000_000
  const NsPerMinute: int := 60_000_000_000
  const NsPerHour: int := 3_600_000_000_000
  const NsPerDay: int := 86_400_000_000_000

  /** Go's `time.Weekday` numbering. */
  const Sunday: int := 0
  const Monday: int := 1
  const Saturday: int := 6

  /** The calendar day an instant falls on (flooring, so instants before 1970 work too). */
  function Day(t: int): int { t / NsPerDay }

  /** Nanoseconds elapsed since the local midnight that starts t's day. */
  function TimeOfDay(t: int): int { t % NsPerDay }

  /** The instant at midnight, local time, that begins day d. */
  function Midnight(d: int): int { d * NsPerDay }

  /** Day 0, 1970-01-01, was a Thursday. */
  function Weekday(d: int): (w: int)
    ensures 0 <= w < 7
  {
    (d + 4) % 7
  }

  /** The instant n calendar days after t, under the fixed-offset zone. */
  function AddDays(t: int, n: int): int { t + n * NsPerDay }

  /** Go's integer division, which truncates toward zero (Dafny's `/` floors). */
  function Quot(a: int, b: int): (q: int)
    requires b > 0
    ensures a >= 0 ==> q == a / b
    ensures a < 0 ==> q == -((-a) / b)
  {
    if a >= 0 then a / b else -((-a) / b)
  }

  /** Go's `%`, whose result takes the sign of the dividend. */
  function Rem(a: int, b: int): (r: int)
    requires b > 0
    ensures a == Quot(a, b) * b + r
    ensures a >= 0 ==> 0 <= r < b
    ensures a < 0 ==> -b < r <= 0
  {
    a - Quot(a, b) * b
  }

  /** Splitting an instant into its day and its time of day is unique. */
  lemma DayAndTime(t: int, d: int, r: int)
    requires 0 <= r < NsPerDay && t == d * NsPerDay + r
    ensures Day(t) == d && TimeOfDay(t) == r
  {
  }

  lemma MidnightOfDay(d: int)
    ensures Day(Midnight(d)) == d && TimeOfDay(Midnight(d)) == 0
  {
    DayAndTime(Midnight(d), d, 0);
  }

  /** Moving by whole days keeps the time of day and shifts the day number. */
  lemma AddDaysShiftsDay(t: int, n: int)
    ensures Day(AddDays(t, n)) == Day(t) + n
    ensures TimeOfDay(AddDays(t, n)) == TimeOfDay(t)
  {
    DayAndTime(AddDays(t, n), Day(t) + n, TimeOfDay(t));
  }

  lemma WeekdayNext(d: int)
    ensures Weekday(d + 1) == (Weekday(d) + 1) % 7
  {
  }

  lemma WeekdayPrevious(d: int)
    ensures Weekday(d - 1) == (Weekday(d) + 6) % 7
  {
  }

  /** Seven days later is the same weekday. */
  lemma WeekdayPeriodic(d: int, k: int)
    ensures Weekday(d + 7 * k) == Weekday(d)
  {
  }
}
