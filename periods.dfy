/**
 * Periods of whole calendar months, as the period arithmetic in the rule
 * files uses them: `size` months beginning on the first day of
 * `startMonth` in `startYear`. Months are numbered consecutively so that
 * moving back or forward by months is integer arithmetic.
 */
module Periods {

  type Month = m: int | 1 <= m <= 12 witness 1

  datatype Period = Period(startYear: int, startMonth: Month, size: nat)

  /** The consecutive number of a month: January of year 0 is 0. */
  function MonthIndex(year: int, month: Month): int {
    12 * year + (month - 1)
  }

  function YearOf(index: int): int {
    index / 12
  }

  function MonthOf(index: int): Month {
    index % 12 + 1
  }

  /** The numbering is a bijection between (year, month) pairs and integers. */
  lemma MonthIndexRoundTrip(year: int, month: Month, index: int)
    ensures YearOf(MonthIndex(year, month)) == year && MonthOf(MonthIndex(year, month)) == month
    ensures MonthIndex(YearOf(index), MonthOf(index)) == index
  {
  }

  function StartIndex(p: Period): int {
    MonthIndex(p.startYear, p.startMonth)
  }

  /** The number of the period's last month. */
  function LastIndex(p: Period): int {
    StartIndex(p) + p.size - 1
  }

  /** The period of `size` months starting at month number `index`. */
  function PeriodAt(index: int, size: nat): (r: Period)
    ensures StartIndex(r) == index && r.size == size
  {
    Period(YearOf(index), MonthOf(index), size)
  }

  predicate ContainsMonth(p: Period, year: int, month: Month) {
    StartIndex(p) <= MonthIndex(year, month) <= LastIndex(p)
  }
}
