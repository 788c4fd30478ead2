/**
 * Section 3 of the Old Age Security Act: eligibility for a full monthly
 * pension (3(1)), for a partial monthly pension (3(2)), and the number of
 * whole years of residence that sets the partial amount (3(4)). Facts the
 * rule file reads as inputs, or from variables it does not define, are
 * parameters here.
 */
module OasSection3 {
  import opened ThreeValued

  // ---------------------------------------------------------------------------
  // 3(1): full monthly pension.
  // ---------------------------------------------------------------------------

  /** `oas_s3_1_satisfied`: any of paragraphs (a), (b) and (c). */
  function FullPension(a: Fact, b: Fact, c: Fact): (r: Fact)
    ensures r == Disjunction([a, b, c])
  {
    Disjunction3(a, b, c);
    var anyTrue := (a.value && a.known) || (b.value && b.known) || (c.value && c.known);
    var allKnown := a.known && b.known && c.known;
    Known(a.value || b.value || c.value, anyTrue || allKnown)
  }

  /** `oas_s3_1_b_satisfied`: all of subparagraphs (i), (ii) and (iii). */
  function FullPensionB(i: Fact, ii: Fact, iii: Fact): (r: Fact)
    ensures r == Conjunction([i, ii, iii])
  {
    Conjunction3(i, ii, iii);
    var anyFalse := (!i.value && i.known) || (!ii.value && ii.known) || (!iii.value && iii.known);
    var allKnown := i.known && ii.known && iii.known;
    Known(i.value && ii.value && iii.value, anyFalse || allKnown)
  }

  /**
   * `oas_s3_1_b_i_satisfied`: not a pensioner on July 1, 1977, and the age and
   * residence test. The negated conjunct is known false when the pensioner
   * flag is known true.
   */
  function FullPensionBI(pensioner: Fact, ageResidence: Fact): (r: Fact)
    ensures r == And2(Negation(pensioner), ageResidence)
  {
    Conjunction2(Negation(pensioner), ageResidence);
    var anyFalse := (pensioner.value && pensioner.known) || (!ageResidence.value && ageResidence.known);
    var allKnown := pensioner.known && ageResidence.known;
    Known(!pensioner.value && ageResidence.value, anyFalse || allKnown)
  }

  /** `oas_s3_1_b_i_age_residence_satisfied`: aged 25 and the residence requirement. */
  function AgeResidence(attained25: Fact, residence: Fact): (r: Fact)
    ensures r == And2(attained25, residence)
  {
    Conjunction2(attained25, residence);
    var anyFalse := (!attained25.value && attained25.known) || (!residence.value && residence.known);
    var allKnown := attained25.known && residence.known;
    Known(attained25.value && residence.value, anyFalse || allKnown)
  }

  /** `oas_s3_1_b_i_attained_25_years`: age on July 1, 1977. */
  function Attained25Years(age1977: Known<int>): (r: Fact)
    ensures r.value <==> age1977.value >= 25
    ensures r.known == age1977.known
  {
    Lift((age: int) => age >= 25, age1977)
  }

  /** `oas_s3_1_b_i_resided_in_canada`: place of residence on July 1, 1977. */
  function ResidedInCanada(place1977: Known<string>): (r: Fact)
    ensures r.value <==> place1977.value == "CA"
    ensures r.known == place1977.known
  {
    Lift((place: string) => place == "CA", place1977)
  }

  /** `oas_s3_1_b_i_residence_requirement`: resided in Canada, or the non-resident alternative. */
  function ResidenceRequirement(resided: Fact, alternative: Fact): (r: Fact)
    ensures r == Or2(resided, alternative)
  {
    Disjunction2(resided, alternative);
    var anyTrue := (resided.value && resided.known) || (alternative.value && alternative.known);
    var allKnown := resided.known && alternative.known;
    Known(resided.value || alternative.value, anyTrue || allKnown)
  }

  /**
   * `oas_s3_1_b_i_non_resident_qualification` as written: not resident, and
   * resided after 18 or held a visa. The flag standing for "residence known"
   * is the negation of the residence known flag, so both the known-false
   * short cut for the negated conjunct and the all-known branch test it the
   * wrong way round.
   */
  function NonResidentQualification(resided: Fact, after18OrVisa: Fact): (r: Fact)
    ensures r.value == And2(Negation(resided), after18OrVisa).value
    ensures r.known <==>
      (resided.value && !resided.known) || (!after18OrVisa.value && after18OrVisa.known) ||
      (!resided.known && after18OrVisa.known)
  {
    Conjunction2(Negation(resided), after18OrVisa);
    var notResidentReversed := resided.value;
    var notResidentKnown := !resided.known;
    var anyFalse := (notResidentReversed && notResidentKnown) || (!after18OrVisa.value && after18OrVisa.known);
    var allKnown := notResidentKnown && after18OrVisa.known;
    Known(!resided.value && after18OrVisa.value, anyFalse || allKnown)
  }

  /**
   * `oas_s3_1_b_i_non_resident_qualification` with the residence known flag
   * used as is: the same shape as `FullPensionBI`, a negated fact and another.
   */
  function NonResidentQualificationCorrected(resided: Fact, after18OrVisa: Fact): (r: Fact)
    ensures r == And2(Negation(resided), after18OrVisa)
  {
    Conjunction2(Negation(resided), after18OrVisa);
    var anyFalse := (resided.value && resided.known) || (!after18OrVisa.value && after18OrVisa.known);
    var allKnown := resided.known && after18OrVisa.known;
    Known(!resided.value && after18OrVisa.value, anyFalse || allKnown)
  }

  /** `oas_s3_1_b_i_resided_in_canada_after_18_or_had_visa`: a two-way disjunction, like `ResidenceRequirement`. */
  function ResidedAfter18OrHadVisa(after18: Fact, visa: Fact): (r: Fact)
    ensures r == Or2(after18, visa)
  {
    Disjunction2(after18, visa);
    var anyTrue := (after18.value && after18.known) || (visa.value && visa.known);
    var allKnown := after18.known && visa.known;
    Known(after18.value || visa.value, anyTrue || allKnown)
  }

  /** The residence requirement of 3(1)(b)(i) on the rule file's own non-resident alternative. */
  function ResidenceRequirementFor(place1977: Known<string>, after18OrVisa: Fact): Fact {
    var resided := ResidedInCanada(place1977);
    ResidenceRequirement(resided, NonResidentQualification(resided, after18OrVisa))
  }

  /** `oas_s3_1_c_satisfied`: all of subparagraphs (i), (ii) and (iii), the same rule as `FullPensionB`. */
  function FullPensionC(i: Fact, ii: Fact, iii: Fact): (r: Fact)
    ensures r == Conjunction([i, ii, iii])
  {
    Conjunction3(i, ii, iii);
    var anyFalse := (!i.value && i.known) || (!ii.value && ii.known) || (!iii.value && iii.known);
    var allKnown := i.known && ii.known && iii.known;
    Known(i.value && ii.value && iii.value, anyFalse || allKnown)
  }

  /** `oas_s3_1_c_ii_at_minimum_age`: 65 or older. */
  function AtMinimumAge(age: Known<int>): (r: Fact)
    ensures r.value <==> age.value >= 65
    ensures r.known == age.known
  {
    Lift((a: int) => a >= 65, age)
  }

  /**
   * `oas_s3_1_c_iii_satisfied`: resided after 18, and 40 years of residence on
   * the day before approval. The approval date's known flag is required
   * only when every conjunct is known, not for a known-false conjunct.
   */
  function FullPensionCIII(residedAfter18: Fact, approvalDateKnown: bool, resided40Years: Fact): (r: Fact)
    ensures r == GatedConjunction([residedAfter18, resided40Years], approvalDateKnown)
  {
    SomeKnownFalse2(residedAfter18, resided40Years);
    Conjunction2(residedAfter18, resided40Years);
    var anyFalse := (!residedAfter18.value && residedAfter18.known) || (!resided40Years.value && resided40Years.known);
    var allKnown := residedAfter18.known && resided40Years.known && approvalDateKnown;
    Known(residedAfter18.value && resided40Years.value, anyFalse || allKnown)
  }

  /** Paragraph (c) for a person: not a pensioner in 1977, 65 or older, 40 years of residence. */
  function FullPensionCFor(pensioner1977: Fact, age: Known<int>, residedAfter18: Fact,
                           approvalDateKnown: bool, resided40Years: Fact): Fact {
    FullPensionC(Negation(pensioner1977), AtMinimumAge(age),
                 FullPensionCIII(residedAfter18, approvalDateKnown, resided40Years))
  }

  /**
   * A fact read on the day before the approval date. While the approval date
   * is not known, the date variable holds its default value, so the fact is
   * the one read on the day before that default, not on the real day.
   */
  datatype ApprovalDayFact = ApprovalDayFact(dateKnown: bool, fact: Fact)

  /**
   * Learning more about a day-before-approval fact: the date may become
   * known; while its known flag stays the same the fact is read on the same
   * day and may only become better known. Once the date becomes known, the
   * fact on the real day bears no relation to the one on the default day.
   */
  predicate ApprovalDayRefines(a: ApprovalDayFact, b: ApprovalDayFact) {
    (a.dateKnown ==> b.dateKnown) && (a.dateKnown == b.dateKnown ==> Refines(a.fact, b.fact))
  }

  /** A day-before-approval fact counts as known only once the approval date is known. */
  function OnApprovalDay(a: ApprovalDayFact): Fact {
    Known(a.fact.value, a.dateKnown && a.fact.known)
  }

  /**
   * 3(1)(c)(iii) with the day-before-approval conjunct counted only once the
   * approval date is known, in its known-false branch as in the all-known one.
   */
  function FullPensionCIIICorrected(residedAfter18: Fact, resided40Years: ApprovalDayFact): (r: Fact)
    ensures r == And2(residedAfter18, OnApprovalDay(resided40Years))
    ensures !resided40Years.dateKnown ==> (r.known <==> residedAfter18.known && !residedAfter18.value)
  {
    Conjunction2(residedAfter18, OnApprovalDay(resided40Years));
    var dayKnown := resided40Years.dateKnown && resided40Years.fact.known;
    var anyFalse := (!residedAfter18.value && residedAfter18.known) || (!resided40Years.fact.value && dayKnown);
    var allKnown := residedAfter18.known && dayKnown;
    Known(residedAfter18.value && resided40Years.fact.value, anyFalse || allKnown)
  }

  /** Paragraph (c) for a person, on the corrected 3(1)(c)(iii). */
  function FullPensionCForCorrected(pensioner1977: Fact, age: Known<int>, residedAfter18: Fact,
                                    resided40Years: ApprovalDayFact): Fact {
    FullPensionC(Negation(pensioner1977), AtMinimumAge(age), FullPensionCIIICorrected(residedAfter18, resided40Years))
  }

  // ---------------------------------------------------------------------------
  // 3(2): partial monthly pension.
  // ---------------------------------------------------------------------------

  /** `oas_s3_2_satisfied`: not eligible for the full pension, and (a) and (b). */
  function PartialPension(fullPension: Fact, a: Fact, b: Fact): (r: Fact)
    ensures r == Conjunction([Negation(fullPension), a, b])
  {
    Conjunction3(Negation(fullPension), a, b);
    var anyFalse := (fullPension.value && fullPension.known) || (!a.value && a.known) || (!b.value && b.known);
    var allKnown := fullPension.known && a.known && b.known;
    Known(!fullPension.value && a.value && b.value, anyFalse || allKnown)
  }

  /** A boolean compared with a number counts as 1 or 0. */
  function BoolAsInt(b: bool): int {
    if b then 1 else 0
  }

  /**
   * `oas_s3_2_a_minimum_age` as written: the known flag compares the age
   * known flag itself with 65, so it is never true.
   */
  function PartialPensionMinimumAge(age: Known<int>): (r: Fact)
    ensures r.value <==> age.value >= 65
    ensures !r.known
  {
    Known(age.value >= 65, BoolAsInt(age.known) >= 65)
  }

  /** `oas_s3_2_a_minimum_age` with the age's own known flag. */
  function PartialPensionMinimumAgeCorrected(age: Known<int>): (r: Fact)
    ensures r == AtMinimumAge(age)
  {
    Known(age.value >= 65, age.known)
  }

  /**
   * `oas_s3_2_b_satisfied`: at least 10 and under 40 years, and, where the
   * years are under 20, resident on the day before approval. The known flag
   * nests three rules: a gated conjunction inside a disjunction inside a
   * conjunction.
   */
  function PartialPensionB(approvalDateKnown: bool, minimum: Fact, maximum: Fact, resident: Fact,
                           residenceRequired: Fact): (r: Fact)
    ensures r == Conjunction([minimum, maximum,
                              Or2(Negation(residenceRequired),
                                  GatedConjunction([residenceRequired, resident], approvalDateKnown))])
  {
    var subsub := GatedConjunction([residenceRequired, resident], approvalDateKnown);
    var sub := Or2(Negation(residenceRequired), subsub);
    SomeKnownFalse2(residenceRequired, resident);
    Conjunction2(residenceRequired, resident);
    Disjunction2(Negation(residenceRequired), subsub);
    Conjunction3(minimum, maximum, sub);
    var subsubAnyFalse := (!residenceRequired.value && residenceRequired.known) || (!resident.value && resident.known);
    var subsubAllKnown := residenceRequired.known && resident.known && approvalDateKnown;
    var subsubKnown := subsubAnyFalse || subsubAllKnown;
    var subAnyTrue := (!residenceRequired.value && residenceRequired.known) ||
                      (residenceRequired.value && resident.value && subsubKnown);
    var subAllKnown := residenceRequired.known && subsubKnown;
    var subKnown := subAnyTrue || subAllKnown;
    var subValue := !residenceRequired.value || (residenceRequired.value && resident.value);
    var anyFalse := (!minimum.value && minimum.known) || (!maximum.value && maximum.known) ||
                    (!subValue && subKnown);
    var allKnown := minimum.known && maximum.known && subKnown;
    Known(minimum.value && maximum.value && subValue, anyFalse || allKnown)
  }

  /** Paragraph 3(2)(b) on the aggregate years of residence since 18. */
  function PartialPensionBFor(duration: Known<real>, approvalDateKnown: bool, resident: Fact): Fact {
    PartialPensionB(approvalDateKnown,
                    Lift((d: real) => d >= 10.0, duration),
                    Lift((d: real) => d < 40.0, duration),
                    resident,
                    Lift((d: real) => d < 20.0, duration))
  }

  /**
   * 3(2)(b) with the residence on the day before approval counted only once
   * the approval date is known, in the inner conjunction's known-false branch
   * as in its all-known one.
   */
  function PartialPensionBCorrected(minimum: Fact, maximum: Fact, resident: ApprovalDayFact,
                                    residenceRequired: Fact): (r: Fact)
    ensures r == Conjunction([minimum, maximum,
                              Or2(Negation(residenceRequired), And2(residenceRequired, OnApprovalDay(resident)))])
  {
    var subsub := And2(residenceRequired, OnApprovalDay(resident));
    var sub := Or2(Negation(residenceRequired), subsub);
    Conjunction2(residenceRequired, OnApprovalDay(resident));
    Disjunction2(Negation(residenceRequired), subsub);
    Conjunction3(minimum, maximum, sub);
    var dayKnown := resident.dateKnown && resident.fact.known;
    var subsubAnyFalse := (!residenceRequired.value && residenceRequired.known) || (!resident.fact.value && dayKnown);
    var subsubAllKnown := residenceRequired.known && dayKnown;
    var subsubKnown := subsubAnyFalse || subsubAllKnown;
    var subAnyTrue := (!residenceRequired.value && residenceRequired.known) ||
                      (residenceRequired.value && resident.fact.value && subsubKnown);
    var subAllKnown := residenceRequired.known && subsubKnown;
    var subKnown := subAnyTrue || subAllKnown;
    var subValue := !residenceRequired.value || (residenceRequired.value && resident.fact.value);
    var anyFalse := (!minimum.value && minimum.known) || (!maximum.value && maximum.known) ||
                    (!subValue && subKnown);
    var allKnown := minimum.known && maximum.known && subKnown;
    Known(minimum.value && maximum.value && subValue, anyFalse || allKnown)
  }

  /** Paragraph 3(2)(b) on the years of residence, on the corrected inner conjunction. */
  function PartialPensionBForCorrected(duration: Known<real>, resident: ApprovalDayFact): Fact {
    PartialPensionBCorrected(Lift((d: real) => d >= 10.0, duration),
                             Lift((d: real) => d < 40.0, duration),
                             resident,
                             Lift((d: real) => d < 20.0, duration))
  }

  // ---------------------------------------------------------------------------
  // 3(4): whole years of residence.
  // ---------------------------------------------------------------------------

  /** `oas_s3_4_duration`: the aggregate residence rounded down to whole years. */
  function WholeYears(duration: Known<real>): (r: Known<int>)
    ensures r.known == duration.known
    ensures r.value as real <= duration.value < r.value as real + 1.0
  {
    Known(duration.value.Floor, duration.known)
  }

  // ---------------------------------------------------------------------------
  // Lemmas.
  // ---------------------------------------------------------------------------

  /** 3(2)(b) holds exactly for 10 to under 40 years, with residence required under 20. */
  lemma PartialPensionBForValue(duration: Known<real>, approvalDateKnown: bool, resident: Fact)
    ensures PartialPensionBFor(duration, approvalDateKnown, resident).value <==>
      10.0 <= duration.value < 40.0 && (duration.value < 20.0 ==> resident.value)
  {
    var required := Lift((d: real) => d < 20.0, duration);
    Conjunction2(required, resident);
    Disjunction2(Negation(required), GatedConjunction([required, resident], approvalDateKnown));
    Conjunction3(Lift((d: real) => d >= 10.0, duration), Lift((d: real) => d < 40.0, duration),
                 Or2(Negation(required), GatedConjunction([required, resident], approvalDateKnown)));
  }

  /**
   * A conjunction with a day-before-approval conjunct, the approval date's
   * known flag gating only its all-known branch, never retracts or flips a
   * known answer as its parts become better known, except where the date
   * becomes known while the conjunct read on the default day was known false.
   */
  lemma ApprovalGateRefines(a: Fact, a': Fact, day: ApprovalDayFact, day': ApprovalDayFact)
    requires Refines(a, a') && ApprovalDayRefines(day, day')
    ensures Refines(GatedConjunction([a, day.fact], day.dateKnown), GatedConjunction([a', day'.fact], day'.dateKnown)) ||
            (!day.dateKnown && day'.dateKnown && day.fact.known && !day.fact.value)
  {
    if day.dateKnown == day'.dateKnown {
      assert RefinesAll([a, day.fact], [a', day'.fact]);
      GatedConjunctionMonotone([a, day.fact], [a', day'.fact], day.dateKnown, day'.dateKnown);
    } else {
      SomeKnownFalse2(a, day.fact);
      SomeKnownFalse2(a', day'.fact);
      Conjunction2(a, day.fact);
      Conjunction2(a', day'.fact);
    }
  }

  /**
   * 3(2)(b) as written never retracts or flips a known answer as the years,
   * the residence or the approval date become better known, except where the
   * date becomes known while the residence read on the default day was known
   * false.
   */
  lemma PartialPensionBForSound(duration: Known<real>, duration': Known<real>,
                                resident: ApprovalDayFact, resident': ApprovalDayFact)
    requires Refines(duration, duration') && ApprovalDayRefines(resident, resident')
    ensures Refines(PartialPensionBFor(duration, resident.dateKnown, resident.fact),
                    PartialPensionBFor(duration', resident'.dateKnown, resident'.fact)) ||
            (!resident.dateKnown && resident'.dateKnown && resident.fact.known && !resident.fact.value)
  {
    LiftMonotone((d: real) => d >= 10.0, duration, duration');
    LiftMonotone((d: real) => d < 40.0, duration, duration');
    LiftMonotone((d: real) => d < 20.0, duration, duration');
    PartialPensionBSound(Lift((d: real) => d >= 10.0, duration), Lift((d: real) => d < 40.0, duration),
                         resident, Lift((d: real) => d < 20.0, duration),
                         Lift((d: real) => d >= 10.0, duration'), Lift((d: real) => d < 40.0, duration'),
                         resident', Lift((d: real) => d < 20.0, duration'));
  }

  /**
   * The 3(2)(b) known formula as written never retracts or flips a known
   * answer as its parts become better known, except where the approval date
   * becomes known while the residence read on the default day was known false.
   */
  lemma PartialPensionBSound(minimum: Fact, maximum: Fact, resident: ApprovalDayFact, required: Fact,
                             minimum': Fact, maximum': Fact, resident': ApprovalDayFact, required': Fact)
    requires Refines(minimum, minimum') && Refines(maximum, maximum') && Refines(required, required')
    requires ApprovalDayRefines(resident, resident')
    ensures Refines(PartialPensionB(resident.dateKnown, minimum, maximum, resident.fact, required),
                    PartialPensionB(resident'.dateKnown, minimum', maximum', resident'.fact, required')) ||
            (!resident.dateKnown && resident'.dateKnown && resident.fact.known && !resident.fact.value)
  {
    ApprovalGateRefines(required, required', resident, resident');
    if !(!resident.dateKnown && resident'.dateKnown && resident.fact.known && !resident.fact.value) {
      var subsub := GatedConjunction([required, resident.fact], resident.dateKnown);
      var subsub' := GatedConjunction([required', resident'.fact], resident'.dateKnown);
      Or2Monotone(Negation(required), subsub, Negation(required'), subsub');
      var fs := [minimum, maximum, Or2(Negation(required), subsub)];
      var gs := [minimum', maximum', Or2(Negation(required'), subsub')];
      assert RefinesAll(fs, gs);
      ConjunctionMonotone(fs, gs);
    }
  }

  /**
   * Learning the approval date can flip 3(2)(b) as written: ten to twenty
   * years of residence and not resident on the day before the default date
   * give a known false; resident on the day before the real date, known true.
   * The corrected rule leaves the first case unknown.
   */
  lemma PartialPensionBApprovalDateFlip()
    ensures var years := Known(15.0, true);
            var before := ApprovalDayFact(false, Known(false, true));
            var after := ApprovalDayFact(true, Known(true, true));
            ApprovalDayRefines(before, after) &&
            PartialPensionBFor(years, before.dateKnown, before.fact) == Known(false, true) &&
            PartialPensionBFor(years, after.dateKnown, after.fact) == Known(true, true) &&
            !PartialPensionBForCorrected(years, before).known
  {
  }

  /** The corrected 3(2)(b) formula is sound, across the approval date becoming known too. */
  lemma PartialPensionBCorrectedSound(minimum: Fact, maximum: Fact, resident: ApprovalDayFact, required: Fact,
                                      minimum': Fact, maximum': Fact, resident': ApprovalDayFact, required': Fact)
    requires Refines(minimum, minimum') && Refines(maximum, maximum') && Refines(required, required')
    requires ApprovalDayRefines(resident, resident')
    ensures Refines(PartialPensionBCorrected(minimum, maximum, resident, required),
                    PartialPensionBCorrected(minimum', maximum', resident', required'))
  {
    assert RefinesAll([required, OnApprovalDay(resident)], [required', OnApprovalDay(resident')]);
    ConjunctionMonotone([required, OnApprovalDay(resident)], [required', OnApprovalDay(resident')]);
    var subsub := And2(required, OnApprovalDay(resident));
    var subsub' := And2(required', OnApprovalDay(resident'));
    Or2Monotone(Negation(required), subsub, Negation(required'), subsub');
    var fs := [minimum, maximum, Or2(Negation(required), subsub)];
    var gs := [minimum', maximum', Or2(Negation(required'), subsub')];
    assert RefinesAll(fs, gs);
    ConjunctionMonotone(fs, gs);
  }

  /** The corrected 3(2)(b) never retracts or flips a known answer in the years or the residence. */
  lemma PartialPensionBForCorrectedSound(duration: Known<real>, duration': Known<real>,
                                         resident: ApprovalDayFact, resident': ApprovalDayFact)
    requires Refines(duration, duration') && ApprovalDayRefines(resident, resident')
    ensures Refines(PartialPensionBForCorrected(duration, resident), PartialPensionBForCorrected(duration', resident'))
  {
    LiftMonotone((d: real) => d >= 10.0, duration, duration');
    LiftMonotone((d: real) => d < 40.0, duration, duration');
    LiftMonotone((d: real) => d < 20.0, duration, duration');
    PartialPensionBCorrectedSound(Lift((d: real) => d >= 10.0, duration), Lift((d: real) => d < 40.0, duration),
                                  resident, Lift((d: real) => d < 20.0, duration),
                                  Lift((d: real) => d >= 10.0, duration'), Lift((d: real) => d < 40.0, duration'),
                                  resident', Lift((d: real) => d < 20.0, duration'));
  }

  /** An unknown approval date leaves 3(1)(c)(iii) known only through a known-false conjunct. */
  lemma FullPensionCIIIApprovalGate(residedAfter18: Fact, resided40Years: Fact)
    ensures FullPensionCIII(residedAfter18, false, resided40Years).known <==>
      (residedAfter18.known && !residedAfter18.value) || (resided40Years.known && !resided40Years.value)
    ensures FullPensionCIII(residedAfter18, true, resided40Years) == And2(residedAfter18, resided40Years)
  {
    SomeKnownFalse2(residedAfter18, resided40Years);
  }

  /**
   * Learning the approval date can flip 3(1)(c)(iii) as written: not 40
   * years resident on the day before the default date gives a known false;
   * 40 years on the day before the real date, known true. The corrected rule
   * leaves the first case unknown.
   */
  lemma FullPensionCIIIApprovalDateFlip()
    ensures var after18 := Known(true, true);
            var before := ApprovalDayFact(false, Known(false, true));
            var after := ApprovalDayFact(true, Known(true, true));
            ApprovalDayRefines(before, after) &&
            FullPensionCIII(after18, before.dateKnown, before.fact) == Known(false, true) &&
            FullPensionCIII(after18, after.dateKnown, after.fact) == Known(true, true) &&
            !Refines(FullPensionCIII(after18, before.dateKnown, before.fact),
                     FullPensionCIII(after18, after.dateKnown, after.fact)) &&
            !FullPensionCIIICorrected(after18, before).known
  {
  }

  /**
   * The corrected 3(1)(c)(iii) has the same value as the rule as written, is
   * never better known, and is the same once the approval date is known.
   */
  lemma FullPensionCIIICorrectedAgrees(residedAfter18: Fact, resided40Years: ApprovalDayFact)
    ensures Refines(FullPensionCIIICorrected(residedAfter18, resided40Years),
                    FullPensionCIII(residedAfter18, resided40Years.dateKnown, resided40Years.fact))
    ensures resided40Years.dateKnown ==>
      FullPensionCIIICorrected(residedAfter18, resided40Years) ==
      FullPensionCIII(residedAfter18, resided40Years.dateKnown, resided40Years.fact)
  {
  }

  /**
   * Paragraph (c) as written never retracts or flips a known answer as its
   * parts become better known, except where the approval date becomes known
   * while the 40 years' residence read on the default day was known false.
   */
  lemma FullPensionCForSound(pensioner: Fact, pensioner': Fact, age: Known<int>, age': Known<int>,
                             residedAfter18: Fact, residedAfter18': Fact,
                             resided40Years: ApprovalDayFact, resided40Years': ApprovalDayFact)
    requires Refines(pensioner, pensioner') && Refines(age, age') && Refines(residedAfter18, residedAfter18')
    requires ApprovalDayRefines(resided40Years, resided40Years')
    ensures Refines(FullPensionCFor(pensioner, age, residedAfter18, resided40Years.dateKnown, resided40Years.fact),
                    FullPensionCFor(pensioner', age', residedAfter18', resided40Years'.dateKnown, resided40Years'.fact)) ||
            (!resided40Years.dateKnown && resided40Years'.dateKnown &&
             resided40Years.fact.known && !resided40Years.fact.value)
  {
    ApprovalGateRefines(residedAfter18, residedAfter18', resided40Years, resided40Years');
    if !(!resided40Years.dateKnown && resided40Years'.dateKnown &&
         resided40Years.fact.known && !resided40Years.fact.value) {
      var fs := [Negation(pensioner), AtMinimumAge(age),
                 FullPensionCIII(residedAfter18, resided40Years.dateKnown, resided40Years.fact)];
      var gs := [Negation(pensioner'), AtMinimumAge(age'),
                 FullPensionCIII(residedAfter18', resided40Years'.dateKnown, resided40Years'.fact)];
      assert RefinesAll(fs, gs);
      ConjunctionMonotone(fs, gs);
    }
  }

  /** Paragraph (c) on the corrected 3(1)(c)(iii) is sound, across the approval date becoming known too. */
  lemma FullPensionCForCorrectedSound(pensioner: Fact, pensioner': Fact, age: Known<int>, age': Known<int>,
                                      residedAfter18: Fact, residedAfter18': Fact,
                                      resided40Years: ApprovalDayFact, resided40Years': ApprovalDayFact)
    requires Refines(pensioner, pensioner') && Refines(age, age') && Refines(residedAfter18, residedAfter18')
    requires ApprovalDayRefines(resided40Years, resided40Years')
    ensures Refines(FullPensionCForCorrected(pensioner, age, residedAfter18, resided40Years),
                    FullPensionCForCorrected(pensioner', age', residedAfter18', resided40Years'))
  {
    var iii := [residedAfter18, OnApprovalDay(resided40Years)];
    var iii' := [residedAfter18', OnApprovalDay(resided40Years')];
    assert RefinesAll(iii, iii');
    ConjunctionMonotone(iii, iii');
    var fs := [Negation(pensioner), AtMinimumAge(age), FullPensionCIIICorrected(residedAfter18, resided40Years)];
    var gs := [Negation(pensioner'), AtMinimumAge(age'), FullPensionCIIICorrected(residedAfter18', resided40Years')];
    assert RefinesAll(fs, gs);
    ConjunctionMonotone(fs, gs);
  }

  /**
   * The non-resident alternative as written reports a known, true result
   * when residence in 1977 is unknown; once the person is known to have
   * been resident it is false.
   */
  lemma NonResidentQualificationUnsound()
    ensures var unknownResidence := Known(false, false);
            var visa := Known(true, true);
            NonResidentQualification(unknownResidence, visa) == Known(true, true) &&
            NonResidentQualification(Known(true, true), visa).value == false
  {
  }

  /**
   * The same input makes the corrected alternative unknown, and the
   * corrected alternative is sound.
   */
  lemma NonResidentQualificationCorrectedSound(resided: Fact, resided': Fact, after18OrVisa: Fact, after18OrVisa': Fact)
    requires Refines(resided, resided') && Refines(after18OrVisa, after18OrVisa')
    ensures Refines(NonResidentQualificationCorrected(resided, after18OrVisa),
                    NonResidentQualificationCorrected(resided', after18OrVisa'))
    ensures !NonResidentQualificationCorrected(Known(false, false), Known(true, true)).known
  {
    And2Monotone(Negation(resided), after18OrVisa, Negation(resided'), after18OrVisa');
    Conjunction2(Negation(Known(false, false)), Known(true, true));
  }

  /**
   * One level up the error is masked: whenever the residence requirement
   * built on the as-written alternative is known, its value is the one the
   * actual residence and visa facts give.
   */
  lemma ResidenceRequirementForIsCorrectWhenKnown(place1977: Known<string>, after18OrVisa: Fact,
                                                  actualPlace: string, actualAfter18OrVisa: bool)
    requires Completes(place1977, actualPlace) && Completes(after18OrVisa, actualAfter18OrVisa)
    requires ResidenceRequirementFor(place1977, after18OrVisa).known
    ensures ResidenceRequirementFor(place1977, after18OrVisa).value ==
      (actualPlace == "CA" || (actualPlace != "CA" && actualAfter18OrVisa))
  {
    var resided := ResidedInCanada(place1977);
    Disjunction2(resided, NonResidentQualification(resided, after18OrVisa));
    Conjunction2(Negation(resided), after18OrVisa);
  }

  /**
   * But it is not monotone: with a visa known, the requirement is known
   * while residence is unknown, and becomes unknown once the person is known
   * not to have been resident.
   */
  lemma ResidenceRequirementForNotMonotone()
    ensures var visa := Known(true, true);
            ResidenceRequirementFor(Known("FR", false), visa).known &&
            !ResidenceRequirementFor(Known("FR", true), visa).known
  {
    var visa := Known(true, true);
    Disjunction2(ResidedInCanada(Known("FR", false)), NonResidentQualification(ResidedInCanada(Known("FR", false)), visa));
    Disjunction2(ResidedInCanada(Known("FR", true)), NonResidentQualification(ResidedInCanada(Known("FR", true)), visa));
  }

  /**
   * Because the 3(2)(a) known flag is never true, 3(2) is known only when the
   * full pension is known to apply or paragraph (b) is known not to.
   */
  lemma PartialPensionKnownWithoutMinimumAge(fullPension: Fact, age: Known<int>, b: Fact)
    ensures PartialPension(fullPension, PartialPensionMinimumAge(age), b).known <==>
      (fullPension.known && fullPension.value) || (b.known && !b.value)
  {
  }

  /** With the corrected 3(2)(a), an actual person of 65 with (b) known gets a known answer. */
  lemma PartialPensionKnownWithCorrectedMinimumAge(fullPension: Fact, age: Known<int>, b: Fact)
    requires fullPension.known && age.known && b.known
    ensures PartialPension(fullPension, PartialPensionMinimumAgeCorrected(age), b).known
    ensures !PartialPension(fullPension, PartialPensionMinimumAge(age), b).known <==>
      !fullPension.value && b.value
  {
  }
}
