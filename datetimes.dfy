/** `java.time.LocalDateTime` as a (calendar day, time of day) pair. */
module DateTimes {

  const NanosPerDay: nat := 86_400_000_000_000

  type TimeOfDay = t: nat | t < NanosPerDay

  /** `day` counts calendar days from a fixed epoch; `toLocalDate()` is `day`. */
  datatype DateTime = DateTime(day: int, time: TimeOfDay)

  /** `a.isBefore(b)`, which is also JPQL's `a < b` on a timestamp column. */
  predicate Before(a: DateTime, b: DateTime) {
    a.day < b.day || (a.day == b.day && a.time < b.time)
  }

  /** `a.isAfter(b)`. */
  predicate IsAfter(a: DateTime, b: DateTime) {
    Before(b, a)
  }

  /** `ChronoUnit.DAYS.between(a.toLocalDate(), b.toLocalDate())`. */
  function DaysBetween(a: DateTime, b: DateTime): int {
    b.day - a.day
  }
}
