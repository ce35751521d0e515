/**
 * The calendar values the month panel works on.
 *
 * A `Date` is the value of a moment as far as the panel is concerned: a month
 * count `year * 12 + month` (month zero-based, as moment numbers them) and a
 * day of the month that month arithmetic carries along unchanged. Because the
 * month count is one integer, adding a year is exactly adding twelve months.
 *
 * A `Moment` is the mutable moment object itself: the panel clones it and
 * then adds to the clone in place, so the object and its identity matter.
 */
module Dates {

  datatype Date = Date(months: int, day: int)

  /** The units the panel passes to `add`. */
  datatype Unit = Months | Years

  function YearOf(d: Date): int {
    d.months / 12
  }

  /** Zero-based month, 0 = January ... 11 = December. */
  function MonthOf(d: Date): int {
    d.months % 12
  }

  /** The date of `day` in the zero-based `month` of `year`. */
  function MakeDate(year: int, month: int, day: int): (d: Date)
    requires 0 <= month < 12
    ensures YearOf(d) == year && MonthOf(d) == month && d.day == day
  {
    Date(year * 12 + month, day)
  }

  /** moment's `add(amount, unit)` on the month count; the day is kept. */
  function Add(d: Date, amount: int, unit: Unit): Date {
    match unit
    case Months => Date(d.months + amount, d.day)
    case Years => Date(d.months + 12 * amount, d.day)
  }

  /** Adding years keeps the month and the day and moves the year by `amount`. */
  lemma AddYears(d: Date, amount: int)
    ensures YearOf(Add(d, amount, Years)) == YearOf(d) + amount
    ensures MonthOf(Add(d, amount, Years)) == MonthOf(d)
    ensures Add(d, amount, Years).day == d.day
  {
  }

  /** One month forward: the next month of the same year, or January of the next year after December. */
  lemma NextMonth(d: Date)
    ensures MonthOf(d) < 11 ==>
      YearOf(Add(d, 1, Months)) == YearOf(d) && MonthOf(Add(d, 1, Months)) == MonthOf(d) + 1
    ensures MonthOf(d) == 11 ==>
      YearOf(Add(d, 1, Months)) == YearOf(d) + 1 && MonthOf(Add(d, 1, Months)) == 0
    ensures Add(d, 1, Months).day == d.day
  {
  }

  /** One month back: the previous month of the same year, or December of the previous year after January. */
  lemma PreviousMonth(d: Date)
    ensures MonthOf(d) > 0 ==>
      YearOf(Add(d, -1, Months)) == YearOf(d) && MonthOf(Add(d, -1, Months)) == MonthOf(d) - 1
    ensures MonthOf(d) == 0 ==>
      YearOf(Add(d, -1, Months)) == YearOf(d) - 1 && MonthOf(Add(d, -1, Months)) == 11
    ensures Add(d, -1, Months).day == d.day
  {
  }

  /** Adding and then subtracting the same amount of the same unit gives the date back. */
  lemma AddInverse(d: Date, amount: int, unit: Unit)
    ensures Add(Add(d, amount, unit), -amount, unit) == d
  {
  }

  /** A year is twelve months. */
  lemma YearIsTwelveMonths(d: Date, amount: int)
    ensures Add(d, amount, Years) == Add(d, 12 * amount, Months)
  {
  }

  /**
   * A moment object. The panel never writes its fields directly: it reads
   * them, clones the object and adds to the clone.
   */
  class Moment {
    var months: int
    var day: int

    function Value(): Date
      reads this
    {
      Date(months, day)
    }

    constructor (d: Date)
      ensures Value() == d
    {
      months, day := d.months, d.day;
    }

    /** `clone()`: a new object with the same value; this one is untouched. */
    method Clone() returns (c: Moment)
      ensures fresh(c) && c.Value() == Value()
    {
      c := new Moment(Value());
    }

    /** `add(amount, unit)`, in place on this object. */
    method AddInPlace(amount: int, unit: Unit)
      modifies this
      ensures Value() == Add(old(Value()), amount, unit)
    {
      var d := Add(Value(), amount, unit);
      months, day := d.months, d.day;
    }
  }
}
