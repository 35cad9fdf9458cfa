/** Calendar dates as JavaScript's local-time getters report them:
    `getFullYear()`, the zero-based `getMonth()` and `getDate()`. */
module Calendar {

  datatype DateFields = DateFields(year: int, month: int, day: int)

  /** The proleptic Gregorian leap-year rule JavaScript's Date uses. */
  predicate IsLeapYear(y: int)
  {
    (y % 4 == 0 && y % 100 != 0) || y % 400 == 0
  }

  /** Length of month `m` (0 = January) of year `y`. */
  function DaysInMonth(y: int, m: int): int
    requires 0 <= m < 12
  {
    if m == 1 then (if IsLeapYear(y) then 29 else 28)
    else if m == 3 || m == 5 || m == 8 || m == 10 then 30
    else 31
  }

  predicate ValidDate(d: DateFields)
  {
    0 <= d.month < 12 && 1 <= d.day <= DaysInMonth(d.year, d.month)
  }

  /** The triple of a real instant: the getters never report an impossible day. */
  type Date = d: DateFields | ValidDate(d) witness DateFields(1970, 0, 1)

  /** The year the Date constructor actually uses: a year argument from 0
      to 99 is read as 1900 plus that year (the two-digit-year rule of
      `new Date(year, month, day)`); every other year is kept. */
  function ConstructorYear(y: int): int
  {
    if 0 <= y <= 99 then 1900 + y else y
  }

  /** Under the two-digit-year rule the leap-year rule changes for year 0
      only: 1900 is a common year, while year 0 is a leap year. */
  lemma ConstructorYearLeap(y: int)
    ensures IsLeapYear(ConstructorYear(y)) <==> IsLeapYear(y) && y != 0
  {
    if 1 <= y <= 99 {
      assert (1900 + y) % 4 == y % 4;
      assert (1900 + y) % 100 != 0;
      assert y % 100 != 0;
    }
  }

  /** `new Date(y, m, 0).getDate()`: the constructor first applies the
      two-digit-year rule, then carries an out-of-range month into the year
      (floor division, as the constructor does); day 0 of that month is
      the last day of the month before. */
  function DayZeroOf(y: int, m: int): int
  {
    var fullYear := ConstructorYear(y);
    var firstYear := fullYear + m / 12;
    var firstMonth := m % 12;
    if firstMonth == 0 then DaysInMonth(firstYear - 1, 11)
    else DaysInMonth(firstYear, firstMonth - 1)
  }

  /** The denominator of the duration calculator,
      `new Date(startYear, startMonth + 1, 0).getDate()`: the length of
      the start month itself (even for December, where the month argument
      12 rolls over into January of the next year), except for February
      of year 0, which the two-digit-year rule reads as February 1900. */
  function DaysInStartMonth(d: Date): (r: int)
    ensures d.year != 0 || d.month != 1 ==> r == DaysInMonth(d.year, d.month)
    ensures d.year == 0 && d.month == 1 ==> r == 28 && DaysInMonth(d.year, d.month) == 29
    ensures 28 <= r <= 31
    ensures r == 29 <==> d.month == 1 && IsLeapYear(d.year) && d.year != 0
    ensures r == 28 <==> d.month == 1 && (!IsLeapYear(d.year) || d.year == 0)
  {
    ConstructorYearLeap(d.year);
    DayZeroOf(d.year, d.month + 1)
  }
}
