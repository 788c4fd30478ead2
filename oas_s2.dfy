/**
 * Definitions from section 2 of the Old Age Security Act: the first and
 * second adjustment quarters of a payment quarter, and the payment period
 * of a month.
 */
module OasSection2 {
  import opened Periods
  import opened InterpretationAct

  /** A computed period, or the error the rule file raises. */
  datatype Result<T> =
    | Ok(value: T)
    | PeriodMismatchError(variable: string)
    | PaymentPeriodUnassigned

  /** A payment quarter: three months starting in January, April, July or October. */
  predicate IsPaymentQuarter(p: Period) {
    p.size == 3 && p.startMonth in {1, 4, 7, 10}
  }

  /** `oas_s2_first_adjustment_quarter`. */
  function FirstAdjustmentQuarter(p: Period): (r: Result<Period>)
    ensures r.Ok? <==> IsPaymentQuarter(p)
    ensures !r.Ok? ==> r == PeriodMismatchError("oas_s2_first_adjustment_quarter")
    ensures r.Ok? ==> r.value.size == 3 && StartIndex(r.value) == StartIndex(p) - 5
  {
    if p.size != 3 || p.startMonth !in {1, 4, 7, 10} then
      PeriodMismatchError("oas_s2_first_adjustment_quarter")
    else if p.startMonth == 4 then
      Ok(Period(p.startYear - 1, 11, 3))
    else if p.startMonth == 7 then
      Ok(Period(p.startYear, 2, 3))
    else if p.startMonth == 10 then
      Ok(Period(p.startYear, 5, 3))
    else
      Ok(Period(p.startYear - 1, 8, 3))
  }

  /** `oas_s2_second_adjustment_quarter`. */
  function SecondAdjustmentQuarter(p: Period): (r: Result<Period>)
    ensures r.Ok? <==> IsPaymentQuarter(p)
    ensures !r.Ok? ==> r == PeriodMismatchError("oas_s2_second_adjustment_quarter")
    ensures r.Ok? ==> r.value.size == 3 && StartIndex(r.value) == StartIndex(p) - 8
  {
    if p.size != 3 || p.startMonth !in {1, 4, 7, 10} then
      PeriodMismatchError("oas_s2_second_adjustment_quarter")
    else if p.startMonth == 4 then
      Ok(Period(p.startYear - 1, 8, 3))
    else if p.startMonth == 7 then
      Ok(Period(p.startYear - 1, 11, 3))
    else if p.startMonth == 10 then
      Ok(Period(p.startYear, 2, 3))
    else
      Ok(Period(p.startYear - 1, 5, 3))
  }

  /**
   * The two adjustment quarters are consecutive: the second ends the month
   * before the first begins, and the first ends two months before the
   * payment quarter begins. Both start in February, May, August or November.
   */
  lemma AdjustmentQuartersAdjacent(p: Period)
    requires IsPaymentQuarter(p)
    ensures LastIndex(SecondAdjustmentQuarter(p).value) + 1 == StartIndex(FirstAdjustmentQuarter(p).value)
    ensures LastIndex(FirstAdjustmentQuarter(p).value) + 3 == StartIndex(p)
    ensures FirstAdjustmentQuarter(p).value.startMonth in {2, 5, 8, 11}
    ensures SecondAdjustmentQuarter(p).value.startMonth in {2, 5, 8, 11}
  {
  }

  /** Each adjustment quarter is the unique three-month period that starts so many months earlier. */
  lemma AdjustmentQuartersByOffset(p: Period)
    requires IsPaymentQuarter(p)
    ensures FirstAdjustmentQuarter(p).value == PeriodAt(StartIndex(p) - 5, 3)
    ensures SecondAdjustmentQuarter(p).value == PeriodAt(StartIndex(p) - 8, 3)
  {
    var first := FirstAdjustmentQuarter(p).value;
    var second := SecondAdjustmentQuarter(p).value;
    MonthIndexRoundTrip(first.startYear, first.startMonth, StartIndex(p) - 5);
    MonthIndexRoundTrip(second.startYear, second.startMonth, StartIndex(p) - 8);
  }

  const April1998: int := MonthIndex(1998, 4)
  const July1999: int := MonthIndex(1999, 7)

  /** The period from April 1, 1998 to June 30, 1999. */
  const TransitionPeriod: Period := Period(1998, 4, 15)

  /**
   * `oas_s2_payment_period` for a period starting on the first of a month.
   * The period's last day is before April 1, 1998 exactly when its last
   * month is before April 1998, and so on for the other two tests. When no
   * branch applies, the rule file would read an unassigned local variable.
   */
  function PaymentPeriod(p: Period): (r: Result<Period>)
    ensures r.Ok? <==> p.size == 1
    ensures !r.Ok? ==> r == PeriodMismatchError("oas_s2_payment_period")
    ensures r.Ok? ==> ContainsMonth(r.value, p.startYear, p.startMonth)
  {
    if p.size != 1 then
      PeriodMismatchError("oas_s2_payment_period")
    else
      var fiscalYear := FiscalYear(p);
      var periodStart := StartIndex(p);
      var periodStop := LastIndex(p);
      var afterJuly := p.startMonth >= 7;
      var paymentStartYear := if afterJuly then p.startYear else p.startYear - 1;
      var paymentYear := Period(paymentStartYear, 7, 12);
      if periodStop < April1998 then
        Ok(fiscalYear)
      else if periodStop < July1999 && periodStart >= April1998 then
        Ok(TransitionPeriod)
      else if periodStart >= July1999 then
        Ok(paymentYear)
      else
        PaymentPeriodUnassigned
  }

  /** For a one-month period exactly one of the three branch conditions holds. */
  lemma PaymentPeriodBranchesPartition(p: Period)
    requires p.size == 1
    ensures var early := LastIndex(p) < April1998;
            var transition := LastIndex(p) < July1999 && StartIndex(p) >= April1998;
            var late := StartIndex(p) >= July1999;
            (early || transition || late) &&
            !(early && transition) && !(early && late) && !(transition && late)
  {
  }

  /** Which payment period a month gets, branch by branch. */
  lemma PaymentPeriodCases(p: Period)
    requires p.size == 1
    ensures StartIndex(p) < April1998 ==> PaymentPeriod(p) == Ok(FiscalYear(p))
    ensures April1998 <= StartIndex(p) < July1999 ==> PaymentPeriod(p) == Ok(TransitionPeriod)
    ensures July1999 <= StartIndex(p) ==>
      PaymentPeriod(p).value.startMonth == 7 && PaymentPeriod(p).value.size == 12
  {
  }

  /** From July 1999 the payment period is the only July-to-June year containing the month. */
  lemma LatePaymentPeriodUnique(p: Period, year: Period)
    requires p.size == 1 && StartIndex(p) >= July1999
    requires year.startMonth == 7 && year.size == 12 && ContainsMonth(year, p.startYear, p.startMonth)
    ensures PaymentPeriod(p) == Ok(year)
  {
    var r := PaymentPeriod(p).value;
    assert StartIndex(year) <= StartIndex(p) < StartIndex(year) + 12;
    assert StartIndex(r) <= StartIndex(p) < StartIndex(r) + 12;
    assert year.startYear == r.startYear;
  }
}
