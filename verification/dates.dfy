/** Calendar dates as the screens read them through `getFullYear`,
    `getMonth` (0 to 11) and `getDate`, and the whole-years age. */
module Dates {

  datatype Date = Date(year: int, month: int, day: int)

  /** Strict lexicographic order on (year, month, day). */
  predicate Before(a: Date, b: Date) {
    || a.year < b.year
    || (a.year == b.year && a.month < b.month)
    || (a.year == b.year && a.month == b.month && a.day < b.day)
  }

  /** `calculateAge(birthDate)` with the current date passed in as `today`. */
  function CalculateAge(birth: Date, today: Date): int {
    var age := today.year - birth.year;
    var monthDiff := today.month - birth.month;
    if monthDiff < 0 || (monthDiff == 0 && today.day < birth.day) then age - 1 else age
  }

  /** The birthday falling `n` years after `birth`. */
  function Anniversary(birth: Date, n: int): Date {
    Date(birth.year + n, birth.month, birth.day)
  }

  /** The age is the difference of the years, less one exactly when this
      year's birthday is still ahead of `today`. */
  lemma AgeIsYearDifference(birth: Date, today: Date)
    ensures CalculateAge(birth, today)
         == today.year - birth.year - (if Before(today, Anniversary(birth, today.year - birth.year)) then 1 else 0)
  {
  }

  /** Someone is at least `n` years old exactly when `today` is not before
      their `n`-th birthday; in particular the birthday itself counts. */
  lemma AgeAtLeast(birth: Date, today: Date, n: int)
    ensures CalculateAge(birth, today) >= n <==> !Before(today, Anniversary(birth, n))
  {
  }

  lemma BirthdayCounts(birth: Date, n: int)
    ensures CalculateAge(birth, Anniversary(birth, n)) == n
  {
  }
}
