/** Calendar dates as the services read them, and the child's age in whole
    months that both the measurement and the child services compute. */
module Calendar {

  /** A date as JavaScript's getters report it: full year, month 0-11
      (`getMonth`), day of the month. */
  datatype Date = Date(year: int, month: int, day: int)

  /** Month difference before clamping: 12 * years + months. */
  function MonthSpan(birth: Date, today: Date): (r: int) {
    (today.year - birth.year) * 12 - birth.month + today.month
  }

  /** calculateAgeInMonths: whole calendar months from the birth date to
      "today", never negative. The day of the month is not read. */
  function AgeInMonths(birth: Date, today: Date): (months: nat)
    ensures months >= MonthSpan(birth, today)
    ensures months == 0 || months == MonthSpan(birth, today)
  {
    var m := MonthSpan(birth, today);
    if m < 0 then 0 else m
  }

  /** Chronological order on valid dates (months 0-11). */
  predicate NotAfter(a: Date, b: Date) {
    a.year < b.year || (a.year == b.year && (a.month < b.month || (a.month == b.month && a.day <= b.day)))
  }

  predicate ValidMonth(d: Date) {
    0 <= d.month < 12
  }

  /** A birth date in the future gives age 0. */
  lemma FutureBirthIsZero(birth: Date, today: Date)
    requires ValidMonth(birth) && ValidMonth(today)
    requires !NotAfter(birth, today)
    ensures AgeInMonths(birth, today) == 0
  {
    if birth.year > today.year {
      assert (today.year - birth.year) * 12 <= -12;
    }
  }

  /** The age is the exact month span whenever the birth date is not after today. */
  lemma PastBirthIsSpan(birth: Date, today: Date)
    requires ValidMonth(birth) && ValidMonth(today)
    requires NotAfter(birth, today)
    ensures AgeInMonths(birth, today) == MonthSpan(birth, today)
  {
    if birth.year < today.year {
      assert (today.year - birth.year) * 12 >= 12;
    }
  }

  /** The day of the month plays no part. */
  lemma AgeIgnoresDay(birth: Date, today: Date, d1: int, d2: int)
    ensures AgeInMonths(Date(birth.year, birth.month, d1), Date(today.year, today.month, d2))
         == AgeInMonths(birth, today)
  {
  }

  /** The age never decreases as "today" moves forward. */
  lemma AgeMonotoneInToday(birth: Date, t1: Date, t2: Date)
    requires ValidMonth(t1) && ValidMonth(t2) && NotAfter(t1, t2)
    ensures AgeInMonths(birth, t1) <= AgeInMonths(birth, t2)
  {
    if t1.year < t2.year {
      assert (t2.year - birth.year) * 12 - (t1.year - birth.year) * 12 >= 12;
    }
  }
}
