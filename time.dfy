/** Date and time as integers: a LocalDateTime is a count of nanoseconds since
    the epoch, a LocalDate a count of days since the epoch. */
module Time {

  const NANOS_PER_HOUR: int := 3_600_000_000_000
  const NANOS_PER_DAY: int := 86_400_000_000_000

  /** `t.plusHours(h)`. */
  function PlusHours(t: int, h: int): int {
    t + h * NANOS_PER_HOUR
  }

  /** `d.atStartOfDay()`: midnight at the start of day `d`. */
  function AtStartOfDay(d: int): int {
    d * NANOS_PER_DAY
  }

  /** `d.atTime(23, 59, 59, 999999999)`: the last nanosecond of day `d`. */
  function AtEndOfDay(d: int): int {
    d * NANOS_PER_DAY + NANOS_PER_DAY - 1
  }

  /** `t.toLocalDate()`: the day an instant falls on. */
  function DateOf(t: int): int {
    t / NANOS_PER_DAY
  }

  /** The lower bound admits exactly the instants on day `d` or later. */
  lemma StartOfDayBound(d: int, t: int)
    ensures AtStartOfDay(d) <= t <==> d <= DateOf(t)
  {
    var q, r := t / NANOS_PER_DAY, t % NANOS_PER_DAY;
    assert t == q * NANOS_PER_DAY + r && 0 <= r < NANOS_PER_DAY;
  }

  /** The upper bound admits exactly the instants on day `d` or earlier. */
  lemma EndOfDayBound(d: int, t: int)
    ensures t <= AtEndOfDay(d) <==> DateOf(t) <= d
  {
    var q, r := t / NANOS_PER_DAY, t % NANOS_PER_DAY;
    assert t == q * NANOS_PER_DAY + r && 0 <= r < NANOS_PER_DAY;
  }
}
