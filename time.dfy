/**
 * Time as integer milliseconds since the epoch. Day boundaries are taken in one fixed
 * time zone (day number = floor(ms / one day)); the browser's local offset and daylight
 * saving time are not modelled.
 */
module Time {

  const MinuteMs: int := 60000
  const DayMs: int := 24 * 60 * 60 * 1000
  const WeekMs: int := 7 * DayMs

  /** The day a timestamp falls on. */
  function DayOf(ts: int): int {
    ts / DayMs
  }

  /** date-fns `startOfDay` / `setHours(0, 0, 0, 0)`: the first millisecond of the day of `ts`. */
  function StartOfDay(ts: int): (r: int)
    ensures r <= ts < r + DayMs
    ensures DayOf(r) == DayOf(ts)
    ensures r % DayMs == 0
  {
    DayOf(ts) * DayMs
  }

  /** `setHours(23, 59, 59, 999)`: the last millisecond of the day of `ts`. */
  function EndOfDay(ts: int): (r: int)
    ensures ts <= r < ts + DayMs
    ensures DayOf(r) == DayOf(ts) && DayOf(r + 1) == DayOf(ts) + 1
  {
    StartOfDay(ts) + DayMs - 1
  }

  /** JavaScript `Math.floor(a / b)` for a positive divisor. */
  function FloorDiv(a: int, b: int): (q: int)
    requires b > 0
    ensures q * b <= a < q * b + b
  {
    a / b
  }

  /** JavaScript `Math.ceil(a / b)` for a positive divisor. */
  function CeilDiv(a: int, b: int): (q: int)
    requires b > 0
    ensures q * b - b < a <= q * b
  {
    -((-a) / b)
  }

  /** date-fns `differenceInDays(later, earlier)`: whole days between the two, truncated toward zero. */
  function DifferenceInDays(later: int, earlier: int): (d: int)
    ensures later >= earlier ==> d >= 0 && d * DayMs <= later - earlier < d * DayMs + DayMs
    ensures later < earlier ==> d <= 0 && d * DayMs >= later - earlier > d * DayMs - DayMs
  {
    if later >= earlier then (later - earlier) / DayMs else -((earlier - later) / DayMs)
  }

  /** At least `n` whole days lie between two instants exactly when `n` days of milliseconds do. */
  lemma DifferenceAtLeast(later: int, earlier: int, n: nat)
    requires n > 0
    ensures DifferenceInDays(later, earlier) >= n <==> later - earlier >= n * DayMs
  {
    var d := DifferenceInDays(later, earlier);
    assert d >= n ==> d * DayMs >= n * DayMs;
    assert d < n ==> d * DayMs + DayMs <= n * DayMs;
  }
}
