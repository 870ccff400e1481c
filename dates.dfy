/** Calendar dates and the age calculation of the screening form (app.py:5-7).
    A date is compared the way Python compares dates and tuples: lexicographically
    on (year, month, day). No property below needs the date to exist in the
    calendar, so any (year, month, day) triple is accepted. */
module Dates {

  datatype Date = Date(year: int, month: int, day: int)

  /** Python's tuple comparison `(m1, d1) < (m2, d2)`. */
  predicate MonthDayBefore(m1: int, d1: int, m2: int, d2: int) {
    m1 < m2 || (m1 == m2 && d1 < d2)
  }

  /** `x < y` on dates. */
  predicate Before(x: Date, y: Date) {
    x.year < y.year || (x.year == y.year && MonthDayBefore(x.month, x.day, y.month, y.day))
  }

  /** `x <= y` on dates. */
  predicate OnOrBefore(x: Date, y: Date) {
    !Before(y, x)
  }

  /** The n-th birthday of someone born on `dob`, as a (year, month, day) triple.
      For a 29 February birth in a non-leap year this is not a real date; it is
      still compared as a triple, which is what the source's tuple comparison does. */
  function Anniversary(dob: Date, n: int): Date {
    Date(dob.year + n, dob.month, dob.day)
  }

  /** calculate_age: the year difference, less one (Python's `True`) when today's
      (month, day) comes before the birth (month, day). The result is the number of
      whole years lived: its birthday has been reached and the next one has not. */
  function Age(dob: Date, today: Date): (years: int)
    ensures OnOrBefore(Anniversary(dob, years), today)
    ensures Before(today, Anniversary(dob, years + 1))
  {
    today.year - dob.year
      - (if MonthDayBefore(today.month, today.day, dob.month, dob.day) then 1 else 0)
  }

  /** The n-th birthday has been reached exactly when the age is at least n. */
  lemma AnniversaryReachedIff(dob: Date, today: Date, n: int)
    ensures OnOrBefore(Anniversary(dob, n), today) <==> n <= Age(dob, today)
  {
  }

  /** Reference definition of age: how many of the birthdays 1..n fall on or before today. */
  function AnniversariesReached(dob: Date, today: Date, n: nat): (count: nat)
    ensures count <= n
  {
    if n == 0 then 0
    else AnniversariesReached(dob, today, n - 1)
         + (if OnOrBefore(Anniversary(dob, n), today) then 1 else 0)
  }

  /** Counting birthdays 1..n gives the age, clamped to [0, n]. */
  lemma {:induction false} AnniversariesReachedClamp(dob: Date, today: Date, n: nat)
    ensures AnniversariesReached(dob, today, n)
            == if Age(dob, today) <= 0 then 0
               else if Age(dob, today) >= n then n
               else Age(dob, today)
  {
    if n > 0 {
      AnniversariesReachedClamp(dob, today, n - 1);
      AnniversaryReachedIff(dob, today, n);
    }
  }

  /** For a birth date on or before today, the age is the number of birthdays
      since birth that have been reached. */
  lemma AgeCountsBirthdays(dob: Date, today: Date)
    requires OnOrBefore(dob, today)
    ensures Age(dob, today) == AnniversariesReached(dob, today, today.year - dob.year)
  {
    AnniversariesReachedClamp(dob, today, today.year - dob.year);
  }

  /** A birth date on or before today gives a non-negative age. */
  lemma AgeNonNegative(dob: Date, today: Date)
    requires OnOrBefore(dob, today)
    ensures Age(dob, today) >= 0
  {
  }

  /** A birth date after today gives a negative age. */
  lemma FutureBirthNegativeAge(dob: Date, today: Date)
    requires Before(today, dob)
    ensures Age(dob, today) < 0
  {
  }

  /** Someone born today is 0 years old. */
  lemma AgeOnBirthDate(d: Date)
    ensures Age(d, d) == 0
  {
  }

  /** On the n-th birthday the age is exactly n. */
  lemma AgeOnBirthday(dob: Date, n: int)
    ensures Age(dob, Anniversary(dob, n)) == n
  {
  }

  /** Age never decreases as today moves forward. */
  lemma AgeMonotone(dob: Date, t1: Date, t2: Date)
    requires OnOrBefore(t1, t2)
    ensures Age(dob, t1) <= Age(dob, t2)
  {
    AnniversaryReachedIff(dob, t1, Age(dob, t1));
    AnniversaryReachedIff(dob, t2, Age(dob, t1));
  }
}
