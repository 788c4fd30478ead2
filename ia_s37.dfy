/**
 * Section 37(1)(b) of the Interpretation Act: the fiscal year runs from
 * April 1 of one calendar year to March 31 of the next.
 */
module InterpretationAct {
  import opened Periods

  /** `ia_37_1_b_fiscal_year`: the fiscal year in which the given period starts. */
  function FiscalYear(p: Period): (r: Period)
    ensures r.startMonth == 4 && r.size == 12
    ensures ContainsMonth(r, p.startYear, p.startMonth)
    ensures p.startMonth < 4 ==> r.startYear == p.startYear - 1
  {
    var startYear := if p.startMonth >= 4 then p.startYear else p.startYear - 1;
    Period(startYear, 4, 12)
  }

  /** There is exactly one fiscal year containing a month: it is the one returned. */
  lemma FiscalYearUnique(p: Period, fy: Period)
    requires fy.startMonth == 4 && fy.size == 12 && ContainsMonth(fy, p.startYear, p.startMonth)
    ensures fy == FiscalYear(p)
  {
    var r := FiscalYear(p);
    assert StartIndex(fy) <= MonthIndex(p.startYear, p.startMonth) < StartIndex(fy) + 12;
    assert StartIndex(r) <= MonthIndex(p.startYear, p.startMonth) < StartIndex(r) + 12;
    assert fy.startYear == r.startYear;
  }

  /** Only the start of the period matters, not its length. */
  lemma FiscalYearOfStart(p: Period, q: Period)
    requires p.startYear == q.startYear && p.startMonth == q.startMonth
    ensures FiscalYear(p) == FiscalYear(q)
  {
  }
}
