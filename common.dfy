/**
 * Small value types shared by the whole model: an optional value (a nullable
 * column or a query that may find no row) and a calendar date (what the
 * framework's clock yields for "today").
 */
module Common {

  datatype Option<T> = None | Some(value: T)

  /** A calendar day; the time of day never matters to the modelled code. */
  datatype Date = Date(year: nat, month: nat, day: nat)

  /** Month and day within their ranges: a loose bound that still admits dates such as February 31. */
  predicate ValidDate(d: Date) {
    1 <= d.month <= 12 && 1 <= d.day <= 31
  }

  /** `whereYear(col, y)->whereMonth(col, m)`: same calendar month. */
  predicate SameMonth(a: Date, b: Date) {
    a.year == b.year && a.month == b.month
  }
}
