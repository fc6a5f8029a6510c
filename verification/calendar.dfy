/** Proleptic Gregorian calendar dates, as Python's `datetime.date` accepts them. */
module Calendar {

  datatype Date = Date(year: int, month: int, day: int)

  const MinYear: int := 1
  const MaxYear: int := 9999

  predicate IsLeap(y: int) {
    y % 4 == 0 && (y % 100 != 0 || y % 400 == 0)
  }

  function DaysInMonth(y: int, m: int): (n: int)
    requires 1 <= m <= 12
    ensures 28 <= n <= 31
    ensures n == 29 <==> m == 2 && IsLeap(y)
  {
    if m == 2 then (if IsLeap(y) then 29 else 28)
    else if m == 4 || m == 6 || m == 9 || m == 11 then 30
    else 31
  }

  /** The dates a Python `date` object can hold. */
  predicate ValidDate(d: Date) {
    && MinYear <= d.year <= MaxYear
    && 1 <= d.month <= 12
    && 1 <= d.day <= DaysInMonth(d.year, d.month)
  }

  /** Moving a valid date to year `2000 + year % 100` keeps it valid: the only
      day that depends on the year is 29 February, and whenever `year` is a
      leap year so is `2000 + year % 100`. */
  lemma ResidentYearKeepsDate(d: Date)
    requires ValidDate(d)
    ensures ValidDate(Date(2000 + d.year % 100, d.month, d.day))
  {
    var y := 2000 + d.year % 100;
    if d.month == 2 && d.day == 29 {
      assert IsLeap(d.year);
      if d.year % 100 == 0 {
        assert y == 2000;
      } else {
        assert d.year % 4 == 0;
        assert d.year == 100 * (d.year / 100) + d.year % 100;
        assert (d.year % 100) % 4 == 0;
        assert y % 4 == 0 && y % 100 != 0;
      }
    }
  }
}
