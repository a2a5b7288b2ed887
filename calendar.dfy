/** Calendar dates and timestamps as pandas holds them after `pd.to_datetime`:
    a proleptic Gregorian date and a time of day with nanosecond resolution.
    Timestamps are ordered chronologically, which for these fields is the
    lexicographic order on (year, month, day, time of day). */
module Calendar {
  import opened Orders

  const NanosPerDay: int := 86_400_000_000_000

  predicate IsLeapYear(y: int)
  {
    y % 4 == 0 && (y % 100 != 0 || y % 400 == 0)
  }

  function DaysInMonth(y: int, m: int): int
    requires 1 <= m <= 12
  {
    if m == 2 then (if IsLeapYear(y) then 29 else 28)
    else if m == 4 || m == 6 || m == 9 || m == 11 then 30
    else 31
  }

  datatype CivilDate = CivilDate(year: int, month: int, day: int)

  predicate IsValidDate(d: CivilDate)
  {
    1 <= d.month <= 12 && 1 <= d.day <= DaysInMonth(d.year, d.month)
  }

  /** A calendar day, as the date-range picker returns it. */
  type Date = d: CivilDate | IsValidDate(d) witness CivilDate(1970, 1, 1)

  datatype DateTime = DateTime(date: Date, nanoOfDay: int)

  /** A point in time: a day and the nanoseconds elapsed since its midnight. */
  type Timestamp = t: DateTime | 0 <= t.nanoOfDay < NanosPerDay witness DateTime(CivilDate(1970, 1, 1), 0)

  predicate DateBefore(a: Date, b: Date)
  {
    || a.year < b.year
    || (a.year == b.year && a.month < b.month)
    || (a.year == b.year && a.month == b.month && a.day < b.day)
  }

  predicate DateAtOrBefore(a: Date, b: Date)
  {
    !DateBefore(b, a)
  }

  /** Strictly earlier. */
  predicate Before(a: Timestamp, b: Timestamp)
  {
    DateBefore(a.date, b.date) || (a.date == b.date && a.nanoOfDay < b.nanoOfDay)
  }

  /** Earlier or the same instant (pandas `<=` on timestamps). */
  predicate AtOrBefore(a: Timestamp, b: Timestamp)
  {
    !Before(b, a)
  }

  lemma BeforeIsStrictTotalOrder()
    ensures StrictTotalOrder(Before)
  {
  }

  /** `pd.Timestamp(day)`: the first instant of a calendar day. */
  function Midnight(d: Date): (m: Timestamp)
    ensures m.date == d
    ensures forall t: Timestamp :: t.date == d ==> AtOrBefore(m, t)
  {
    DateTime(d, 0)
  }

  /** `.dt.to_period('M').dt.to_timestamp()`: the first instant of the
      timestamp's calendar month. */
  function MonthStart(t: Timestamp): (m: Timestamp)
    ensures m.date.year == t.date.year && m.date.month == t.date.month
    ensures AtOrBefore(m, t)
    ensures forall u: Timestamp :: u.date.year == t.date.year && u.date.month == t.date.month ==> AtOrBefore(m, u)
  {
    DateTime(CivilDate(t.date.year, t.date.month, 1), 0)
  }

  /** Two timestamps in the same calendar month have the same month start. */
  lemma MonthStartSameMonth(t: Timestamp, u: Timestamp)
    ensures MonthStart(t) == MonthStart(u) <==> t.date.year == u.date.year && t.date.month == u.date.month
  {
  }

  /** The month start of a month start is itself. */
  lemma MonthStartIdempotent(t: Timestamp)
    ensures MonthStart(MonthStart(t)) == MonthStart(t)
  {
  }

  /** Truncating to months keeps chronological order. */
  lemma MonthStartMonotone(t: Timestamp, u: Timestamp)
    requires AtOrBefore(t, u)
    ensures AtOrBefore(MonthStart(t), MonthStart(u))
  {
  }
}
