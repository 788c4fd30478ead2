/**
 * Section 4 of the Old Age Security Act: who may be paid a pension under
 * Part I — not a pensioner on July 1, 1977, and a citizen or legally
 * resident in Canada on the day before approval (4(1)(a)) or on the day
 * before ceasing to reside in Canada (4(1)(b)).
 */
module OasSection4 {
  import opened ThreeValued
  import opened OldAgeSecurity

  /** `oas_s4_1_satisfied`: not a pensioner in 1977, and (a) or (b). */
  function EligibleUnderPartI(pensioner1977: Fact, a: Fact, b: Fact): (r: Fact)
    ensures r == And2(Negation(pensioner1977), Or2(a, b))
  {
    Disjunction2(a, b);
    Conjunction2(Negation(pensioner1977), Or2(a, b));
    var subAnyTrue := (a.value && a.known) || (b.value && b.known);
    var subAllKnown := a.known && b.known;
    var subKnown := subAnyTrue || subAllKnown;
    var anyFalse := (pensioner1977.value && pensioner1977.known) || (!(a.value || b.value) && subKnown);
    var allKnown := pensioner1977.known && subKnown;
    Known(!pensioner1977.value && (a.value || b.value), anyFalse || allKnown)
  }

  /**
   * `oas_s4_legally_resident_in_canada`: the regulations' test of legal
   * residence, passed through with its known flag.
   */
  function LegallyResident(regulations: Fact): (r: Fact)
    ensures r.value == regulations.value && r.known == regulations.known
  {
    regulations
  }

  /**
   * A citizen, or else legally resident, on a given day; known only when
   * the date itself is known, and then by the disjunction rule.
   */
  function CitizenOrLegallyResident(dateKnown: bool, status: Known<LegalStatus>, regulations: Fact): (r: Fact)
    ensures r.value <==> status.value == CanadianCitizen || regulations.value
    ensures r.known <==> dateKnown && Or2(Lift((s: LegalStatus) => s == CanadianCitizen, status), regulations).known
  {
    var legallyResident := LegallyResident(regulations);
    Disjunction2(Lift((s: LegalStatus) => s == CanadianCitizen, status), legallyResident);
    var citizen := status.value == CanadianCitizen;
    var eitherTrue := (citizen && status.known) || (legallyResident.value && legallyResident.known);
    var bothKnown := status.known && legallyResident.known;
    Known(citizen || legallyResident.value, dateKnown && (eitherTrue || bothKnown))
  }

  /**
   * The citizen test of `oas_s4_1_a_satisfied` and `oas_s4_1_b_satisfied`
   * as written: the legal status, an enumeration, is compared with the
   * string "CANADIAN_CITIZEN" rather than with the enumeration member. The
   * enumeration's equality compares its member index with any operand that
   * is not a member, so this test is false for every status; its known flag
   * is the status's own.
   */
  function CitizenAsWritten(status: Known<LegalStatus>): (r: Fact)
    ensures !r.value && r.known == status.known
  {
    Known(false, status.known)
  }

  /**
   * 4(1)(a) and 4(1)(b) on the citizen test as written: only legal
   * residence can make the paragraph hold, and it is known only when the
   * date is, and then by the disjunction rule.
   */
  function CitizenOrLegallyResidentAsWritten(dateKnown: bool, status: Known<LegalStatus>, regulations: Fact): (r: Fact)
    ensures r.value == regulations.value
    ensures r.known <==> dateKnown && Or2(CitizenAsWritten(status), regulations).known
  {
    var citizen := CitizenAsWritten(status);
    Disjunction2(citizen, regulations);
    var eitherTrue := (citizen.value && citizen.known) || (regulations.value && regulations.known);
    var bothKnown := status.known && regulations.known;
    Known(citizen.value || regulations.value, dateKnown && (eitherTrue || bothKnown))
  }

  /** `oas_s4_1_a_satisfied`: status on the day before approval. */
  function ParagraphA(approvalDateKnown: bool, statusBeforeApproval: Known<LegalStatus>,
                      regulationsBeforeApproval: Fact): (r: Fact)
    ensures !approvalDateKnown ==> !r.known
    ensures r.value <==> statusBeforeApproval.value == CanadianCitizen || regulationsBeforeApproval.value
  {
    CitizenOrLegallyResident(approvalDateKnown, statusBeforeApproval, regulationsBeforeApproval)
  }

  /**
   * `oas_s4_1_b_satisfied`: status on the day before ceasing to reside in
   * Canada; the rule file repeats `ParagraphA` for the other date.
   */
  function ParagraphB(ceasingDateKnown: bool, statusBeforeCeasing: Known<LegalStatus>,
                      regulationsBeforeCeasing: Fact): (r: Fact)
    ensures !ceasingDateKnown ==> !r.known
    ensures r.value <==> statusBeforeCeasing.value == CanadianCitizen || regulationsBeforeCeasing.value
  {
    CitizenOrLegallyResident(ceasingDateKnown, statusBeforeCeasing, regulationsBeforeCeasing)
  }

  /** The outer conjunction is known exactly in the three cases its comments list. */
  lemma EligibleUnderPartIKnownCases(pensioner1977: Fact, a: Fact, b: Fact)
    ensures EligibleUnderPartI(pensioner1977, a, b).known <==>
      (pensioner1977.known && pensioner1977.value) ||
      (Or2(a, b).known && !(a.value || b.value)) ||
      (pensioner1977.known && Or2(a, b).known)
    ensures Or2(a, b).known <==> (a.known && a.value) || (b.known && b.value) || (a.known && b.known)
  {
    Disjunction2(a, b);
  }

  /**
   * Facts read on the day before a date become better known: the date may
   * become known, and while its known flag stays the same they are read on
   * the same day and may only become better known. Once the date becomes
   * known they are read on another day and need not be related at all.
   */
  predicate DayBeforeRefines(dateKnown: bool, dateKnown': bool, status: Known<LegalStatus>,
                             status': Known<LegalStatus>, regulations: Fact, regulations': Fact) {
    (dateKnown ==> dateKnown') &&
    (dateKnown == dateKnown' ==> Refines(status, status') && Refines(regulations, regulations'))
  }

  /**
   * Learning the date, the status or the regulations' answer never retracts
   * or flips a known paragraph, the date becoming known included.
   */
  lemma CitizenOrLegallyResidentMonotone(dateKnown: bool, dateKnown': bool, status: Known<LegalStatus>,
                                         status': Known<LegalStatus>, regulations: Fact, regulations': Fact)
    requires DayBeforeRefines(dateKnown, dateKnown', status, status', regulations, regulations')
    ensures Refines(CitizenOrLegallyResident(dateKnown, status, regulations),
                    CitizenOrLegallyResident(dateKnown', status', regulations'))
  {
    if dateKnown == dateKnown' {
      var citizen := (s: LegalStatus) => s == CanadianCitizen;
      Or2Monotone(Lift(citizen, status), regulations, Lift(citizen, status'), regulations');
    }
  }

  /** The paragraph on the citizen test as written is sound in the same sense. */
  lemma CitizenOrLegallyResidentAsWrittenMonotone(dateKnown: bool, dateKnown': bool, status: Known<LegalStatus>,
                                                  status': Known<LegalStatus>, regulations: Fact, regulations': Fact)
    requires DayBeforeRefines(dateKnown, dateKnown', status, status', regulations, regulations')
    ensures Refines(CitizenOrLegallyResidentAsWritten(dateKnown, status, regulations),
                    CitizenOrLegallyResidentAsWritten(dateKnown', status', regulations'))
  {
    if dateKnown == dateKnown' {
      Or2Monotone(CitizenAsWritten(status), regulations, CitizenAsWritten(status'), regulations');
    }
  }

  /**
   * The citizen test as written misses citizens: a citizen whom the
   * regulations do not call legally resident fails 4(1)(a) as written,
   * known false, and satisfies it, known true, on the test by enumeration
   * member. On every other status the two agree.
   */
  lemma CitizenStringComparisonMissesCitizen(dateKnown: bool, status: Known<LegalStatus>, regulations: Fact)
    ensures CitizenOrLegallyResidentAsWritten(true, Known(CanadianCitizen, true), Known(false, true)) == Known(false, true)
    ensures CitizenOrLegallyResident(true, Known(CanadianCitizen, true), Known(false, true)) == Known(true, true)
    ensures status.value != CanadianCitizen ==>
              CitizenOrLegallyResidentAsWritten(dateKnown, status, regulations) ==
              CitizenOrLegallyResident(dateKnown, status, regulations)
  {
  }

  /**
   * Section 4(1) is sound over the two dates and the four facts it reads on
   * the days before them, either date becoming known included.
   */
  lemma EligibleUnderPartISound(
    pensioner: Fact, pensioner': Fact,
    approvalKnown: bool, approvalKnown': bool, statusA: Known<LegalStatus>, statusA': Known<LegalStatus>,
    regulationsA: Fact, regulationsA': Fact,
    ceasingKnown: bool, ceasingKnown': bool, statusB: Known<LegalStatus>, statusB': Known<LegalStatus>,
    regulationsB: Fact, regulationsB': Fact)
    requires Refines(pensioner, pensioner')
    requires DayBeforeRefines(approvalKnown, approvalKnown', statusA, statusA', regulationsA, regulationsA')
    requires DayBeforeRefines(ceasingKnown, ceasingKnown', statusB, statusB', regulationsB, regulationsB')
    ensures Refines(
      EligibleUnderPartI(pensioner, ParagraphA(approvalKnown, statusA, regulationsA),
                         ParagraphB(ceasingKnown, statusB, regulationsB)),
      EligibleUnderPartI(pensioner', ParagraphA(approvalKnown', statusA', regulationsA'),
                         ParagraphB(ceasingKnown', statusB', regulationsB')))
  {
    CitizenOrLegallyResidentMonotone(approvalKnown, approvalKnown', statusA, statusA', regulationsA, regulationsA');
    CitizenOrLegallyResidentMonotone(ceasingKnown, ceasingKnown', statusB, statusB', regulationsB, regulationsB');
    var a, a' := ParagraphA(approvalKnown, statusA, regulationsA), ParagraphA(approvalKnown', statusA', regulationsA');
    var b, b' := ParagraphB(ceasingKnown, statusB, regulationsB), ParagraphB(ceasingKnown', statusB', regulationsB');
    Or2Monotone(a, b, a', b');
    And2Monotone(Negation(pensioner), Or2(a, b), Negation(pensioner'), Or2(a', b'));
  }
}
