/**
 * The eligibility rules for Old Age Security (OAS), the Guaranteed Income
 * Supplement (GIS), the Allowance and the Allowance for the Survivor (AFS).
 * Every derived boolean variable and its `_known` companion become one
 * function returning a `Fact`; the `_known` formula is written as the rule
 * file writes it, and the contract says which generic rule it agrees with.
 * Variables that only pass another variable through are inlined.
 */
module OldAgeSecurity {
  import opened ThreeValued

  datatype LegalStatus = CanadianCitizen | PermanentResident | StatusIndian | TemporaryResident | Other

  datatype MaritalStatus = Single | Married | CommonLaw | Widowed | Divorced | Separated

  /** One person's input variables, each paired with its `_known` input. */
  datatype Person = Person(
    age: Known<int>,
    income: Known<int>,
    placeOfResidence: Known<string>,
    legalStatus: Known<LegalStatus>,
    yearsInCanadaSince18: Known<int>,
    maritalStatus: Known<MaritalStatus>,
    partnerReceivingOas: Fact,
    eligibleUnderSocialAgreement: Fact)

  /** The parameter values the formulas look up for the period. */
  datatype Parameters = Parameters(
    eligibilityAge: int,
    oasMaxIncome: int,
    socialAgreementCountries: set<string>,
    gisMaxIncomeSingle: int,
    gisMaxIncomePartnered: int,
    gisMaxIncomeTwoRecipients: int,
    allowanceMinimumYears: int,
    allowanceMinimumAge: int,
    allowanceIncomeCap: int,
    afsIncomeCap: int)

  /** `q` knows at least what `p` knows about every input, with the same values. */
  predicate PersonRefines(p: Person, q: Person) {
    Refines(p.age, q.age) && Refines(p.income, q.income) &&
    Refines(p.placeOfResidence, q.placeOfResidence) && Refines(p.legalStatus, q.legalStatus) &&
    Refines(p.yearsInCanadaSince18, q.yearsInCanadaSince18) &&
    Refines(p.maritalStatus, q.maritalStatus) &&
    Refines(p.partnerReceivingOas, q.partnerReceivingOas) &&
    Refines(p.eligibleUnderSocialAgreement, q.eligibleUnderSocialAgreement)
  }

  /** Every input of `p` is known: `p` describes an actual person. */
  predicate FullyKnown(p: Person) {
    p.age.known && p.income.known && p.placeOfResidence.known && p.legalStatus.known &&
    p.yearsInCanadaSince18.known && p.maritalStatus.known && p.partnerReceivingOas.known &&
    p.eligibleUnderSocialAgreement.known
  }

  /** One of the four legal statuses that qualify. */
  predicate QualifyingLegalStatus(s: LegalStatus) {
    s == CanadianCitizen || s == StatusIndian || s == PermanentResident || s == TemporaryResident
  }

  predicate Partnered(m: MaritalStatus) {
    m == Married || m == CommonLaw
  }

  // ---------------------------------------------------------------------------
  // Shared inputs.
  // ---------------------------------------------------------------------------

  /** `resides_in_agreement_country`: the place of residence is on the agreement list. */
  function ResidesInAgreementCountry(p: Person, prm: Parameters): (r: Fact)
    ensures r.value <==> p.placeOfResidence.value in prm.socialAgreementCountries
    ensures r.known == p.placeOfResidence.known
  {
    Lift((place: string) => place in prm.socialAgreementCountries, p.placeOfResidence)
  }

  // ---------------------------------------------------------------------------
  // OAS.
  // ---------------------------------------------------------------------------

  /** `oas_eligible_required_residency_duration_amount`: 10 years for residents of Canada, else 20. */
  function RequiredResidencyDurationAmount(place: Known<string>): (r: Known<int>)
    ensures r.known == place.known
    ensures place.value == "CA" ==> r.value == 10
    ensures place.value != "CA" ==> r.value == 20
  {
    Known(if place.value == "CA" then 10 else 20, place.known)
  }

  /** `oas_eligible_required_residency_duration_satisfied`: known once both the years and the amount are. */
  function RequiredResidencyDuration(years: Known<int>, amount: Known<int>): (r: Fact)
    ensures r.value <==> years.value >= amount.value
    ensures r.known <==> years.known && amount.known
  {
    Known(years.value >= amount.value, years.known && amount.known)
  }

  /** `oas_eligible_foreign_residency_requirement_satisfied`, a conjunction of two facts. */
  function ForeignResidency(residesInAgreementCountry: Fact, eligibleUnderAgreement: Fact): (r: Fact)
    ensures r == And2(residesInAgreementCountry, eligibleUnderAgreement)
  {
    Conjunction2(residesInAgreementCountry, eligibleUnderAgreement);
    var notResides := residesInAgreementCountry.known && !residesInAgreementCountry.value;
    var notEligible := eligibleUnderAgreement.known && !eligibleUnderAgreement.value;
    var oneFalse := notResides || notEligible;
    var allKnown := residesInAgreementCountry.known && eligibleUnderAgreement.known;
    Known(residesInAgreementCountry.value && eligibleUnderAgreement.value, allKnown || oneFalse)
  }

  /** `oas_eligible_residency_requirement_satisfied`: Canadian or foreign residency. */
  function ResidencyRequirement(canadian: Fact, foreign: Fact): (r: Fact)
    ensures r == Or2(canadian, foreign)
  {
    Disjunction2(canadian, foreign);
    var canadianTrue := canadian.known && canadian.value;
    var foreignTrue := foreign.known && foreign.value;
    var allKnown := canadian.known && foreign.known;
    Known(canadian.value || foreign.value, (canadianTrue || foreignTrue) || allKnown)
  }

  /**
   * `oas_eligible` as written: the known flag tests `known * not_(known)` for
   * the legal-status conjunct, which is never true, so a known-false legal
   * status is not recognised. The value is the five-way conjunction, and the
   * flag is the conjunction rule with the legal-status short cut removed.
   */
  function OasEligible(income: Fact, age: Fact, legalStatus: Fact, duration: Fact, residency: Fact): (r: Fact)
    ensures r.value == Conjunction([income, age, legalStatus, duration, residency]).value
    ensures r.known <==>
      AllKnown([income, age, legalStatus, duration, residency]) ||
      SomeKnownFalse([income, age, duration, residency])
  {
    Conjunction5(income, age, legalStatus, duration, residency);
    AllKnown5(income, age, legalStatus, duration, residency);
    SomeKnownFalse4(income, age, duration, residency);
    var allTrue := income.known && age.known && legalStatus.known && duration.known && residency.known;
    var incomeFalse := income.known && !income.value;
    var ageFalse := age.known && !age.value;
    var legalStatusFalse := legalStatus.known && !legalStatus.known;
    var durationFalse := duration.known && !duration.value;
    var residencyFalse := residency.known && !residency.value;
    var anyFalse := incomeFalse || ageFalse || legalStatusFalse || durationFalse || residencyFalse;
    Known(income.value && age.value && legalStatus.value && duration.value && residency.value, allTrue || anyFalse)
  }

  /** `oas_eligible` with the legal-status term testing the value, as the other four terms do. */
  function OasEligibleCorrected(income: Fact, age: Fact, legalStatus: Fact, duration: Fact, residency: Fact): (r: Fact)
    ensures r == Conjunction([income, age, legalStatus, duration, residency])
  {
    Conjunction5(income, age, legalStatus, duration, residency);
    var allTrue := income.known && age.known && legalStatus.known && duration.known && residency.known;
    var incomeFalse := income.known && !income.value;
    var ageFalse := age.known && !age.value;
    var legalStatusFalse := legalStatus.known && !legalStatus.value;
    var durationFalse := duration.known && !duration.value;
    var residencyFalse := residency.known && !residency.value;
    var anyFalse := incomeFalse || ageFalse || legalStatusFalse || durationFalse || residencyFalse;
    Known(income.value && age.value && legalStatus.value && duration.value && residency.value, allTrue || anyFalse)
  }

  /** The five OAS requirements of a person, in the order `oas_eligible` multiplies them. */
  function OasIncomeRequirement(p: Person, prm: Parameters): (r: Fact)
    ensures r.value <==> p.income.value <= prm.oasMaxIncome
    ensures r.known == p.income.known
  {
    Lift((income: int) => !(income > prm.oasMaxIncome), p.income)
  }

  function OasAgeRequirement(p: Person, prm: Parameters): (r: Fact)
    ensures r.value <==> p.age.value >= prm.eligibilityAge
    ensures r.known == p.age.known
  {
    Lift((age: int) => age >= prm.eligibilityAge, p.age)
  }

  function OasLegalStatusRequirement(p: Person): (r: Fact)
    ensures r.value <==> QualifyingLegalStatus(p.legalStatus.value)
    ensures r.known == p.legalStatus.known
  {
    Lift(QualifyingLegalStatus, p.legalStatus)
  }

  function OasDurationRequirement(p: Person): (r: Fact)
    ensures r.value <==> p.yearsInCanadaSince18.value >= (if p.placeOfResidence.value == "CA" then 10 else 20)
    ensures r.known <==> p.yearsInCanadaSince18.known && p.placeOfResidence.known
  {
    RequiredResidencyDuration(p.yearsInCanadaSince18, RequiredResidencyDurationAmount(p.placeOfResidence))
  }

  function OasResidencyRequirement(p: Person, prm: Parameters): (r: Fact)
    ensures r.value <==> p.placeOfResidence.value == "CA" ||
                         (p.placeOfResidence.value in prm.socialAgreementCountries && p.eligibleUnderSocialAgreement.value)
    ensures r == Or2(Lift((place: string) => place == "CA", p.placeOfResidence),
                     And2(ResidesInAgreementCountry(p, prm), p.eligibleUnderSocialAgreement))
  {
    ResidencyRequirement(
      Lift((place: string) => place == "CA", p.placeOfResidence),
      ForeignResidency(ResidesInAgreementCountry(p, prm), p.eligibleUnderSocialAgreement))
  }

  /** `oas_eligible` for a person, as the rule file computes it. */
  function OasEligibleFor(p: Person, prm: Parameters): Fact {
    OasEligible(OasIncomeRequirement(p, prm), OasAgeRequirement(p, prm), OasLegalStatusRequirement(p),
                OasDurationRequirement(p), OasResidencyRequirement(p, prm))
  }

  /** `oas_eligible` for a person, with the corrected known flag. */
  function OasEligibleForCorrected(p: Person, prm: Parameters): Fact {
    OasEligibleCorrected(OasIncomeRequirement(p, prm), OasAgeRequirement(p, prm), OasLegalStatusRequirement(p),
                         OasDurationRequirement(p), OasResidencyRequirement(p, prm))
  }

  // ---------------------------------------------------------------------------
  // GIS.
  // ---------------------------------------------------------------------------

  /** `gis_eligible_income_max_partnered`: married or common-law. */
  function GisPartnered(p: Person): (r: Fact)
    ensures r.value == Partnered(p.maritalStatus.value) && r.known == p.maritalStatus.known
  {
    Lift(Partnered, p.maritalStatus)
  }

  /**
   * `gis_eligible_income_max` as written: the partner-receiving test is applied
   * last, so it overrides the single maximum as well. The known flag counts a
   * person known not to be partnered as known whatever the partner flag is.
   */
  function GisIncomeMax(p: Person, prm: Parameters): (r: Known<int>)
    ensures r.value in {prm.gisMaxIncomeSingle, prm.gisMaxIncomePartnered, prm.gisMaxIncomeTwoRecipients}
    ensures r.known <==> p.maritalStatus.known && (!Partnered(p.maritalStatus.value) || p.partnerReceivingOas.known)
  {
    var partnered := GisPartnered(p);
    var maxIncome := if partnered.value then prm.gisMaxIncomePartnered else prm.gisMaxIncomeSingle;
    var maxIncome' := if p.partnerReceivingOas.value then prm.gisMaxIncomeTwoRecipients else maxIncome;
    var notPartnered := !partnered.value && partnered.known;
    var bothKnown := p.maritalStatus.known && p.partnerReceivingOas.known;
    Known(maxIncome', notPartnered || bothKnown)
  }

  /** `gis_eligible_income_max` with the partner test applied only to partnered people. */
  function GisIncomeMaxCorrected(p: Person, prm: Parameters): Known<int> {
    var partnered := GisPartnered(p);
    var maxIncome :=
      if !partnered.value then prm.gisMaxIncomeSingle
      else if p.partnerReceivingOas.value then prm.gisMaxIncomeTwoRecipients
      else prm.gisMaxIncomePartnered;
    var notPartnered := !partnered.value && partnered.known;
    var bothKnown := p.maritalStatus.known && p.partnerReceivingOas.known;
    Known(maxIncome, notPartnered || bothKnown)
  }

  /** `gis_eligible_income`: income strictly below the maximum; known once both are. */
  function GisIncome(income: Known<int>, maxIncome: Known<int>): (r: Fact)
    ensures r.value <==> income.value < maxIncome.value
    ensures r.known <==> income.known && maxIncome.known
  {
    Known(income.value < maxIncome.value, income.known && maxIncome.known)
  }

  /** `gis_eligible_age`. */
  function GisAge(p: Person, prm: Parameters): (r: Fact)
    ensures r.value <==> p.age.value >= prm.eligibilityAge
    ensures r.known == p.age.known
  {
    Lift((age: int) => age >= prm.eligibilityAge, p.age)
  }

  /**
   * `gis_eligible` as written: the age term of the known flag lacks `not_`,
   * so a known-true age makes the result known and a known-false age does not.
   */
  function GisEligible(oas: Fact, income: Fact, age: Fact): (r: Fact)
    ensures r.value == Conjunction([oas, income, age]).value
    ensures r.known <==>
      SomeKnownFalse([oas, income]) || (age.known && age.value) || AllKnown([oas, income, age])
  {
    Conjunction3(oas, income, age);
    SomeKnownFalse2(oas, income);
    AllKnown3(oas, income, age);
    var allKnown := oas.known && income.known && age.known;
    var oasFalse := oas.known && !oas.value;
    var incomeFalse := income.known && !income.value;
    var ageFalse := age.known && age.value;
    var anyFalse := oasFalse || incomeFalse || ageFalse;
    Known(oas.value && income.value && age.value, anyFalse || allKnown)
  }

  /** `gis_eligible` with `not_` restored in the age term. */
  function GisEligibleCorrected(oas: Fact, income: Fact, age: Fact): (r: Fact)
    ensures r == Conjunction([oas, income, age])
  {
    Conjunction3(oas, income, age);
    var allKnown := oas.known && income.known && age.known;
    var oasFalse := oas.known && !oas.value;
    var incomeFalse := income.known && !income.value;
    var ageFalse := age.known && !age.value;
    var anyFalse := oasFalse || incomeFalse || ageFalse;
    Known(oas.value && income.value && age.value, anyFalse || allKnown)
  }

  /** `gis_eligible` for a person, as the rule file computes it. */
  function GisEligibleFor(p: Person, prm: Parameters): Fact {
    GisEligible(OasEligibleFor(p, prm), GisIncome(p.income, GisIncomeMax(p, prm)), GisAge(p, prm))
  }

  /** `gis_eligible` for a person, with the three corrections. */
  function GisEligibleForCorrected(p: Person, prm: Parameters): Fact {
    GisEligibleCorrected(OasEligibleForCorrected(p, prm), GisIncome(p.income, GisIncomeMaxCorrected(p, prm)),
                         GisAge(p, prm))
  }

  // ---------------------------------------------------------------------------
  // Allowance.
  // ---------------------------------------------------------------------------

  /** `allowance_eligible`, a five-way conjunction. */
  function AllowanceEligible(residence: Fact, partnered: Fact, partnerReceiving: Fact, income: Fact, age: Fact): (r: Fact)
    ensures r == Conjunction([residence, partnered, partnerReceiving, income, age])
  {
    Conjunction5(residence, partnered, partnerReceiving, income, age);
    var ageFalse := age.known && !age.value;
    var partneredFalse := partnered.known && !partnered.value;
    var partnerReceivingFalse := partnerReceiving.known && !partnerReceiving.value;
    var incomeFalse := income.known && !income.value;
    var residenceFalse := residence.known && !residence.value;
    var anyFalse := ageFalse || partneredFalse || incomeFalse || residenceFalse || partnerReceivingFalse;
    var allKnown := age.known && partnered.known && income.known && residence.known && partnerReceiving.known;
    Known(residence.value && partnered.value && partnerReceiving.value && income.value && age.value,
          anyFalse || allKnown)
  }

  /** `allowance_residence_requirement_satisfied`: Canadian or foreign residence. */
  function AllowanceResidence(canadian: Fact, foreign: Fact): (r: Fact)
    ensures r == Or2(canadian, foreign)
  {
    Disjunction2(canadian, foreign);
    var canadianTrue := canadian.known && canadian.value;
    var foreignTrue := foreign.known && foreign.value;
    var eitherTrue := canadianTrue || foreignTrue;
    var bothKnown := canadian.known && foreign.known;
    Known(canadian.value || foreign.value, eitherTrue || bothKnown)
  }

  /** `allowance_residence_canadian_satisfied`: qualifying status and enough years. */
  function AllowanceResidenceCanadian(status: Fact, duration: Fact): (r: Fact)
    ensures r == And2(status, duration)
  {
    Conjunction2(status, duration);
    var canadianFalse := status.known && !status.value;
    var durationFalse := duration.known && !duration.value;
    var eitherFalse := canadianFalse || durationFalse;
    var bothKnown := status.known && duration.known;
    Known(status.value && duration.value, eitherFalse || bothKnown)
  }

  /** `allowance_residence_foreign_satisfied`: agreement country, qualified under it, enough years. */
  function AllowanceResidenceForeign(inAgreement: Fact, qualified: Fact, duration: Fact): (r: Fact)
    ensures r == Conjunction([inAgreement, qualified, duration])
  {
    Conjunction3(inAgreement, qualified, duration);
    var inAgreementFalse := inAgreement.known && !inAgreement.value;
    var qualifiedFalse := qualified.known && !qualified.value;
    var durationFalse := duration.known && !duration.value;
    var anyFalse := inAgreementFalse || qualifiedFalse || durationFalse;
    var allKnown := inAgreement.known && qualified.known && duration.known;
    Known(inAgreement.value && qualified.value && duration.value, anyFalse || allKnown)
  }

  /**
   * `allowance_partnered_requirement_satisfied`: the known flag adds "known
   * married" and "known common-law" to "marital status known", which adds
   * nothing: the flag is the marital status's own.
   */
  function AllowancePartnered(marital: Known<MaritalStatus>): (r: Fact)
    ensures r == Lift(Partnered, marital)
  {
    var marriedTrue := marital.value == Married && marital.known;
    var commonLawTrue := marital.value == CommonLaw && marital.known;
    var eitherTrue := marriedTrue || commonLawTrue;
    var bothKnown := marital.known;
    Known(marital.value == Married || marital.value == CommonLaw, eitherTrue || bothKnown)
  }

  /** `allowance_age_requirement_satisfied`: at least the minimum age and below the cap. */
  function AllowanceAge(minimum: Fact, cap: Fact): (r: Fact)
    ensures r == And2(minimum, cap)
  {
    Conjunction2(minimum, cap);
    var minFalse := minimum.known && !minimum.value;
    var capFalse := cap.known && !cap.value;
    var anyFalse := minFalse || capFalse;
    var allKnown := minimum.known && cap.known;
    Known(minimum.value && cap.value, anyFalse || allKnown)
  }

  function AllowanceDuration(p: Person, prm: Parameters): Fact {
    Lift((years: int) => years >= prm.allowanceMinimumYears, p.yearsInCanadaSince18)
  }

  /** `allowance_residence_requirement_satisfied` for a person. */
  function AllowanceResidenceFor(p: Person, prm: Parameters): Fact {
    var duration := AllowanceDuration(p, prm);
    AllowanceResidence(
      AllowanceResidenceCanadian(Lift(QualifyingLegalStatus, p.legalStatus), duration),
      AllowanceResidenceForeign(ResidesInAgreementCountry(p, prm), p.eligibleUnderSocialAgreement, duration))
  }

  /** `allowance_age_requirement_satisfied` for a person. */
  function AllowanceAgeFor(p: Person, prm: Parameters): Fact {
    AllowanceAge(Lift((age: int) => age >= prm.allowanceMinimumAge, p.age),
                 Lift((age: int) => age < prm.eligibilityAge, p.age))
  }

  /** `allowance_eligible` for a person. */
  function AllowanceEligibleFor(p: Person, prm: Parameters): Fact {
    AllowanceEligible(AllowanceResidenceFor(p, prm), AllowancePartnered(p.maritalStatus), p.partnerReceivingOas,
                      Lift((income: int) => income < prm.allowanceIncomeCap, p.income), AllowanceAgeFor(p, prm))
  }

  // ---------------------------------------------------------------------------
  // Allowance for the Survivor. Its residence and age rules have the same
  // shape as the Allowance's but are separate variables with their own
  // hand-written known formulas.
  // ---------------------------------------------------------------------------

  /** `afs_eligible`, a four-way conjunction. */
  function AfsEligible(age: Fact, widowed: Fact, income: Fact, residence: Fact): (r: Fact)
    ensures r == Conjunction([age, widowed, income, residence])
  {
    Conjunction4(age, widowed, income, residence);
    var ageFalse := age.known && !age.value;
    var widowedFalse := widowed.known && !widowed.value;
    var incomeFalse := income.known && !income.value;
    var residenceFalse := residence.known && !residence.value;
    var anyFalse := ageFalse || widowedFalse || incomeFalse || residenceFalse;
    var allKnown := age.known && widowed.known && income.known && residence.known;
    Known(age.value && widowed.value && income.value && residence.value, anyFalse || allKnown)
  }

  /** `afs_age_requirement_satisfied`: the same rule as `AllowanceAge`, as the rule file repeats it. */
  function AfsAge(minimum: Fact, cap: Fact): (r: Fact)
    ensures r == And2(minimum, cap)
  {
    Conjunction2(minimum, cap);
    var minFalse := minimum.known && !minimum.value;
    var capFalse := cap.known && !cap.value;
    var anyFalse := minFalse || capFalse;
    var allKnown := minimum.known && cap.known;
    Known(minimum.value && cap.value, anyFalse || allKnown)
  }

  /** `afs_widowed_requirement_satisfied`: widowed and neither married nor common-law. */
  function AfsWidowed(marital: Known<MaritalStatus>): (r: Fact)
    ensures r.known == marital.known
    ensures r.value <==> marital.value == Widowed
  {
    var married := marital.value == Married;
    var commonLaw := marital.value == CommonLaw;
    var widowed := marital.value == Widowed;
    Known(widowed && !(married || commonLaw), marital.known)
  }

  /** `afs_residence_requirement_satisfied`: the same rule as `AllowanceResidence`, as the rule file repeats it. */
  function AfsResidence(canadian: Fact, foreign: Fact): (r: Fact)
    ensures r == Or2(canadian, foreign)
  {
    Disjunction2(canadian, foreign);
    var canadianTrue := canadian.known && canadian.value;
    var foreignTrue := foreign.known && foreign.value;
    var eitherTrue := canadianTrue || foreignTrue;
    var bothKnown := canadian.known && foreign.known;
    Known(canadian.value || foreign.value, eitherTrue || bothKnown)
  }

  /** `afs_residence_canadian_satisfied`: the same rule as `AllowanceResidenceCanadian`, as the rule file repeats it. */
  function AfsResidenceCanadian(status: Fact, duration: Fact): (r: Fact)
    ensures r == And2(status, duration)
  {
    Conjunction2(status, duration);
    var canadianFalse := status.known && !status.value;
    var durationFalse := duration.known && !duration.value;
    var eitherFalse := canadianFalse || durationFalse;
    var bothKnown := status.known && duration.known;
    Known(status.value && duration.value, eitherFalse || bothKnown)
  }

  /** `afs_residence_foreign_satisfied`: the same rule as `AllowanceResidenceForeign`, as the rule file repeats it. */
  function AfsResidenceForeign(inAgreement: Fact, qualified: Fact, duration: Fact): (r: Fact)
    ensures r == Conjunction([inAgreement, qualified, duration])
  {
    Conjunction3(inAgreement, qualified, duration);
    var inAgreementFalse := inAgreement.known && !inAgreement.value;
    var qualifiedFalse := qualified.known && !qualified.value;
    var durationFalse := duration.known && !duration.value;
    var anyFalse := inAgreementFalse || qualifiedFalse || durationFalse;
    var allKnown := inAgreement.known && qualified.known && duration.known;
    Known(inAgreement.value && qualified.value && duration.value, anyFalse || allKnown)
  }

  /** `afs_residence_requirement_satisfied` for a person; the years are the Allowance's parameter. */
  function AfsResidenceFor(p: Person, prm: Parameters): Fact {
    var duration := AllowanceDuration(p, prm);
    AfsResidence(
      AfsResidenceCanadian(Lift(QualifyingLegalStatus, p.legalStatus), duration),
      AfsResidenceForeign(ResidesInAgreementCountry(p, prm), p.eligibleUnderSocialAgreement, duration))
  }

  /** `afs_age_requirement_satisfied` for a person; the minimum age is the Allowance's parameter. */
  function AfsAgeFor(p: Person, prm: Parameters): Fact {
    AfsAge(Lift((age: int) => age >= prm.allowanceMinimumAge, p.age),
           Lift((age: int) => age < prm.eligibilityAge, p.age))
  }

  /** `afs_eligible` for a person. */
  function AfsEligibleFor(p: Person, prm: Parameters): Fact {
    AfsEligible(AfsAgeFor(p, prm), AfsWidowed(p.maritalStatus),
                Lift((income: int) => income < prm.afsIncomeCap, p.income), AfsResidenceFor(p, prm))
  }
  // ---------------------------------------------------------------------------
  // What the rules compute, in terms of the inputs.
  // ---------------------------------------------------------------------------

  /** OAS eligibility: income within the maximum, age, status, years and residence. */
  lemma OasEligibleForValue(p: Person, prm: Parameters)
    ensures OasEligibleFor(p, prm).value <==>
      p.income.value <= prm.oasMaxIncome &&
      p.age.value >= prm.eligibilityAge &&
      QualifyingLegalStatus(p.legalStatus.value) &&
      p.yearsInCanadaSince18.value >= (if p.placeOfResidence.value == "CA" then 10 else 20) &&
      (p.placeOfResidence.value == "CA" ||
       (p.placeOfResidence.value in prm.socialAgreementCountries && p.eligibleUnderSocialAgreement.value))
  {
    Conjunction5(OasIncomeRequirement(p, prm), OasAgeRequirement(p, prm), OasLegalStatusRequirement(p),
                 OasDurationRequirement(p), OasResidencyRequirement(p, prm));
    Disjunction2(Lift((place: string) => place == "CA", p.placeOfResidence),
                 ForeignResidency(ResidesInAgreementCountry(p, prm), p.eligibleUnderSocialAgreement));
    Conjunction2(ResidesInAgreementCountry(p, prm), p.eligibleUnderSocialAgreement);
  }

  /** The Allowance and AFS residence requirement: enough years, and status or an agreement. */
  lemma AllowanceResidenceForValue(p: Person, prm: Parameters)
    ensures AllowanceResidenceFor(p, prm).value == AfsResidenceFor(p, prm).value
    ensures AllowanceResidenceFor(p, prm).value <==>
      p.yearsInCanadaSince18.value >= prm.allowanceMinimumYears &&
      (QualifyingLegalStatus(p.legalStatus.value) ||
       (p.placeOfResidence.value in prm.socialAgreementCountries && p.eligibleUnderSocialAgreement.value))
  {
    var duration := AllowanceDuration(p, prm);
    var status := Lift(QualifyingLegalStatus, p.legalStatus);
    var inAgreement := ResidesInAgreementCountry(p, prm);
    Conjunction2(status, duration);
    Conjunction3(inAgreement, p.eligibleUnderSocialAgreement, duration);
    Disjunction2(AllowanceResidenceCanadian(status, duration),
                 AllowanceResidenceForeign(inAgreement, p.eligibleUnderSocialAgreement, duration));
  }

  /** The Allowance: residence with enough years, partnered, partner receiving OAS, income and age band. */
  lemma AllowanceEligibleForValue(p: Person, prm: Parameters)
    ensures AllowanceEligibleFor(p, prm).value <==>
      p.yearsInCanadaSince18.value >= prm.allowanceMinimumYears &&
      (QualifyingLegalStatus(p.legalStatus.value) ||
       (p.placeOfResidence.value in prm.socialAgreementCountries && p.eligibleUnderSocialAgreement.value)) &&
      Partnered(p.maritalStatus.value) &&
      p.partnerReceivingOas.value &&
      p.income.value < prm.allowanceIncomeCap &&
      prm.allowanceMinimumAge <= p.age.value < prm.eligibilityAge
  {
    AllowanceResidenceForValue(p, prm);
    Conjunction2(Lift((age: int) => age >= prm.allowanceMinimumAge, p.age),
                 Lift((age: int) => age < prm.eligibilityAge, p.age));
    Conjunction5(AllowanceResidenceFor(p, prm), AllowancePartnered(p.maritalStatus), p.partnerReceivingOas,
                 Lift((income: int) => income < prm.allowanceIncomeCap, p.income), AllowanceAgeFor(p, prm));
  }

  /** The Allowance for the Survivor: age band, widowed, income and residence with enough years. */
  lemma AfsEligibleForValue(p: Person, prm: Parameters)
    ensures AfsEligibleFor(p, prm).value <==>
      prm.allowanceMinimumAge <= p.age.value < prm.eligibilityAge &&
      p.maritalStatus.value == Widowed &&
      p.income.value < prm.afsIncomeCap &&
      p.yearsInCanadaSince18.value >= prm.allowanceMinimumYears &&
      (QualifyingLegalStatus(p.legalStatus.value) ||
       (p.placeOfResidence.value in prm.socialAgreementCountries && p.eligibleUnderSocialAgreement.value))
  {
    AllowanceResidenceForValue(p, prm);
    Conjunction2(Lift((age: int) => age >= prm.allowanceMinimumAge, p.age),
                 Lift((age: int) => age < prm.eligibilityAge, p.age));
    Conjunction4(AfsAgeFor(p, prm), AfsWidowed(p.maritalStatus),
                 Lift((income: int) => income < prm.afsIncomeCap, p.income), AfsResidenceFor(p, prm));
  }

  /** The GIS maximum income: two recipients if the partner receives OAS, else partnered or single. */
  lemma GisIncomeMaxSelection(p: Person, prm: Parameters)
    ensures p.partnerReceivingOas.value ==> GisIncomeMax(p, prm).value == prm.gisMaxIncomeTwoRecipients
    ensures !p.partnerReceivingOas.value && Partnered(p.maritalStatus.value) ==>
      GisIncomeMax(p, prm).value == prm.gisMaxIncomePartnered
    ensures !p.partnerReceivingOas.value && !Partnered(p.maritalStatus.value) ==>
      GisIncomeMax(p, prm).value == prm.gisMaxIncomeSingle
    ensures GisIncomeMax(p, prm).known <==>
      (p.maritalStatus.known && (!Partnered(p.maritalStatus.value) || p.partnerReceivingOas.known))
  {
  }

  // ---------------------------------------------------------------------------
  // Soundness: a known result never changes when more inputs become known.
  // With `q` an actual person agreeing with everything `p` knows, a known
  // result for `p` is the result for `q`.
  // ---------------------------------------------------------------------------

  lemma OasRequirementsMonotone(p: Person, q: Person, prm: Parameters)
    requires PersonRefines(p, q)
    ensures Refines(OasIncomeRequirement(p, prm), OasIncomeRequirement(q, prm))
    ensures Refines(OasAgeRequirement(p, prm), OasAgeRequirement(q, prm))
    ensures Refines(OasLegalStatusRequirement(p), OasLegalStatusRequirement(q))
    ensures Refines(OasDurationRequirement(p), OasDurationRequirement(q))
    ensures Refines(OasResidencyRequirement(p, prm), OasResidencyRequirement(q, prm))
  {
    And2Monotone(ResidesInAgreementCountry(p, prm), p.eligibleUnderSocialAgreement,
                 ResidesInAgreementCountry(q, prm), q.eligibleUnderSocialAgreement);
    Or2Monotone(Lift((place: string) => place == "CA", p.placeOfResidence),
                ForeignResidency(ResidesInAgreementCountry(p, prm), p.eligibleUnderSocialAgreement),
                Lift((place: string) => place == "CA", q.placeOfResidence),
                ForeignResidency(ResidesInAgreementCountry(q, prm), q.eligibleUnderSocialAgreement));
  }

  lemma OasRequirementsKnown(q: Person, prm: Parameters)
    requires FullyKnown(q)
    ensures OasIncomeRequirement(q, prm).known && OasAgeRequirement(q, prm).known
    ensures OasLegalStatusRequirement(q).known && OasDurationRequirement(q).known
    ensures OasResidencyRequirement(q, prm).known
  {
    Disjunction2(Lift((place: string) => place == "CA", q.placeOfResidence),
                 ForeignResidency(ResidesInAgreementCountry(q, prm), q.eligibleUnderSocialAgreement));
    Conjunction2(ResidesInAgreementCountry(q, prm), q.eligibleUnderSocialAgreement);
  }

  /** `oas_eligible` as written is sound: learning more never retracts or flips a known answer. */
  lemma OasEligibleForSound(p: Person, q: Person, prm: Parameters)
    requires PersonRefines(p, q)
    ensures Refines(OasEligibleFor(p, prm), OasEligibleFor(q, prm))
    ensures FullyKnown(q) ==> OasEligibleFor(q, prm).known
  {
    OasRequirementsMonotone(p, q, prm);
    var fs := [OasIncomeRequirement(p, prm), OasAgeRequirement(p, prm), OasLegalStatusRequirement(p),
               OasDurationRequirement(p), OasResidencyRequirement(p, prm)];
    var gs := [OasIncomeRequirement(q, prm), OasAgeRequirement(q, prm), OasLegalStatusRequirement(q),
               OasDurationRequirement(q), OasResidencyRequirement(q, prm)];
    Conjunction5(fs[0], fs[1], fs[2], fs[3], fs[4]);
    Conjunction5(gs[0], gs[1], gs[2], gs[3], gs[4]);
    if FullyKnown(q) {
      OasRequirementsKnown(q, prm);
    }
  }

  /** The corrected `oas_eligible` is sound as well. */
  lemma OasEligibleForCorrectedSound(p: Person, q: Person, prm: Parameters)
    requires PersonRefines(p, q)
    ensures Refines(OasEligibleForCorrected(p, prm), OasEligibleForCorrected(q, prm))
    ensures FullyKnown(q) ==> OasEligibleForCorrected(q, prm).known
  {
    OasRequirementsMonotone(p, q, prm);
    var fs := [OasIncomeRequirement(p, prm), OasAgeRequirement(p, prm), OasLegalStatusRequirement(p),
               OasDurationRequirement(p), OasResidencyRequirement(p, prm)];
    var gs := [OasIncomeRequirement(q, prm), OasAgeRequirement(q, prm), OasLegalStatusRequirement(q),
               OasDurationRequirement(q), OasResidencyRequirement(q, prm)];
    assert RefinesAll(fs, gs);
    ConjunctionMonotone(fs, gs);
    if FullyKnown(q) {
      OasRequirementsKnown(q, prm);
      Conjunction5(gs[0], gs[1], gs[2], gs[3], gs[4]);
    }
  }

  /** The as-written flag never claims more than the corrected one: the deviation only loses answers. */
  lemma OasEligibleRefinedByCorrected(income: Fact, age: Fact, legalStatus: Fact, duration: Fact, residency: Fact)
    ensures Refines(OasEligible(income, age, legalStatus, duration, residency),
                    OasEligibleCorrected(income, age, legalStatus, duration, residency))
  {
    Conjunction5(income, age, legalStatus, duration, residency);
  }

  /**
   * A person known not to have a qualifying legal status is not eligible for
   * any completion of the other inputs, yet `oas_eligible_known` is false.
   */
  lemma OasEligibleMissesKnownFalseLegalStatus()
    ensures var unknown := Known(true, false);
            var noStatus := Known(false, true);
            !OasEligible(unknown, unknown, noStatus, unknown, unknown).known &&
            OasEligibleCorrected(unknown, unknown, noStatus, unknown, unknown) == Known(false, true) &&
            forall cs :: Completions([unknown, unknown, noStatus, unknown, unknown], cs) ==> !AllTrue(cs)
  {
    var unknown := Known(true, false);
    var noStatus := Known(false, true);
    var fs := [unknown, unknown, noStatus, unknown, unknown];
    Conjunction5(unknown, unknown, noStatus, unknown, unknown);
    forall cs | Completions(fs, cs) ensures !AllTrue(cs) {
      assert !cs[2];
    }
  }

  lemma GisIncomeMaxCorrectedMonotone(p: Person, q: Person, prm: Parameters)
    requires PersonRefines(p, q)
    ensures Refines(GisIncomeMaxCorrected(p, prm), GisIncomeMaxCorrected(q, prm))
    ensures FullyKnown(q) ==> GisIncomeMaxCorrected(q, prm).known
  {
  }

  /**
   * `gis_eligible_income_max` as written reports a known maximum for a
   * single person whose partner flag is unknown, yet the maximum it reports
   * changes once the flag becomes known.
   */
  lemma GisIncomeMaxUnsound(prm: Parameters)
    requires prm.gisMaxIncomeTwoRecipients != prm.gisMaxIncomeSingle
    ensures var p := Person(Known(65, true), Known(0, true), Known("CA", true), Known(CanadianCitizen, true),
                            Known(40, true), Known(Single, true), Known(true, false), Known(false, true));
            var q := p.(partnerReceivingOas := Known(false, true));
            PersonRefines(p, q) && GisIncomeMax(p, prm).known && !Refines(GisIncomeMax(p, prm), GisIncomeMax(q, prm))
  {
  }

  /**
   * `gis_eligible` as written reports a known result when only the age
   * requirement is known, and known to hold; the result then changes once
   * OAS eligibility becomes known to be false.
   */
  lemma GisEligibleAgeShortCircuitUnsound()
    ensures var unknown := Known(true, false);
            var ageMet := Known(true, true);
            GisEligible(unknown, unknown, ageMet).known &&
            !Refines(GisEligible(unknown, unknown, ageMet), GisEligible(Known(false, true), unknown, ageMet))
  {
    SomeKnownFalse2(Known(true, false), Known(true, false));
    SomeKnownFalse2(Known(false, true), Known(true, false));
    Conjunction3(Known(true, false), Known(true, false), Known(true, true));
    Conjunction3(Known(false, true), Known(true, false), Known(true, true));
  }

  /** With the three corrections, `gis_eligible` is sound. */
  lemma GisEligibleForCorrectedSound(p: Person, q: Person, prm: Parameters)
    requires PersonRefines(p, q)
    ensures Refines(GisEligibleForCorrected(p, prm), GisEligibleForCorrected(q, prm))
    ensures FullyKnown(q) ==> GisEligibleForCorrected(q, prm).known
  {
    OasEligibleForCorrectedSound(p, q, prm);
    GisIncomeMaxCorrectedMonotone(p, q, prm);
    var fs := [OasEligibleForCorrected(p, prm), GisIncome(p.income, GisIncomeMaxCorrected(p, prm)), GisAge(p, prm)];
    var gs := [OasEligibleForCorrected(q, prm), GisIncome(q.income, GisIncomeMaxCorrected(q, prm)), GisAge(q, prm)];
    assert RefinesAll(fs, gs);
    ConjunctionMonotone(fs, gs);
    if FullyKnown(q) {
      Conjunction3(gs[0], gs[1], gs[2]);
    }
  }

  /** The Allowance and AFS residence and age parts are sound. */
  lemma AllowancePartsSound(p: Person, q: Person, prm: Parameters)
    requires PersonRefines(p, q)
    ensures Refines(AllowanceResidenceFor(p, prm), AllowanceResidenceFor(q, prm))
    ensures Refines(AfsResidenceFor(p, prm), AfsResidenceFor(q, prm))
    ensures Refines(AllowanceAgeFor(p, prm), AllowanceAgeFor(q, prm))
    ensures Refines(AfsAgeFor(p, prm), AfsAgeFor(q, prm))
  {
    AllowanceResidenceSound(p, q, prm);
    AllowanceAgeSound(p, q, prm);
  }

  lemma AllowanceResidenceSound(p: Person, q: Person, prm: Parameters)
    requires PersonRefines(p, q)
    ensures Refines(AllowanceResidenceFor(p, prm), AllowanceResidenceFor(q, prm))
    ensures Refines(AfsResidenceFor(p, prm), AfsResidenceFor(q, prm))
  {
    var durationP, durationQ := AllowanceDuration(p, prm), AllowanceDuration(q, prm);
    var statusP, statusQ := Lift(QualifyingLegalStatus, p.legalStatus), Lift(QualifyingLegalStatus, q.legalStatus);
    var inP, inQ := ResidesInAgreementCountry(p, prm), ResidesInAgreementCountry(q, prm);
    And2Monotone(statusP, durationP, statusQ, durationQ);
    var foreignP := [inP, p.eligibleUnderSocialAgreement, durationP];
    var foreignQ := [inQ, q.eligibleUnderSocialAgreement, durationQ];
    assert RefinesAll(foreignP, foreignQ);
    ConjunctionMonotone(foreignP, foreignQ);
    Or2Monotone(And2(statusP, durationP), Conjunction(foreignP), And2(statusQ, durationQ), Conjunction(foreignQ));
  }

  lemma AllowanceAgeSound(p: Person, q: Person, prm: Parameters)
    requires PersonRefines(p, q)
    ensures Refines(AllowanceAgeFor(p, prm), AllowanceAgeFor(q, prm))
    ensures Refines(AfsAgeFor(p, prm), AfsAgeFor(q, prm))
  {
    And2Monotone(Lift((age: int) => age >= prm.allowanceMinimumAge, p.age),
                 Lift((age: int) => age < prm.eligibilityAge, p.age),
                 Lift((age: int) => age >= prm.allowanceMinimumAge, q.age),
                 Lift((age: int) => age < prm.eligibilityAge, q.age));
  }

  /** For an actual person the Allowance and AFS residence and age parts are known. */
  lemma AllowancePartsKnown(q: Person, prm: Parameters)
    requires FullyKnown(q)
    ensures AllowanceResidenceFor(q, prm).known && AfsResidenceFor(q, prm).known
    ensures AllowanceAgeFor(q, prm).known && AfsAgeFor(q, prm).known
  {
    var duration := AllowanceDuration(q, prm);
    var status := Lift(QualifyingLegalStatus, q.legalStatus);
    var inAgreement := ResidesInAgreementCountry(q, prm);
    Conjunction2(status, duration);
    Conjunction3(inAgreement, q.eligibleUnderSocialAgreement, duration);
    Disjunction2(And2(status, duration), Conjunction([inAgreement, q.eligibleUnderSocialAgreement, duration]));
    Conjunction2(Lift((age: int) => age >= prm.allowanceMinimumAge, q.age),
                 Lift((age: int) => age < prm.eligibilityAge, q.age));
  }

  /** `allowance_eligible` is sound. */
  lemma AllowanceEligibleForSound(p: Person, q: Person, prm: Parameters)
    requires PersonRefines(p, q)
    ensures Refines(AllowanceEligibleFor(p, prm), AllowanceEligibleFor(q, prm))
    ensures FullyKnown(q) ==> AllowanceEligibleFor(q, prm).known
  {
    AllowancePartsSound(p, q, prm);
    var fs := [AllowanceResidenceFor(p, prm), AllowancePartnered(p.maritalStatus), p.partnerReceivingOas,
               Lift((income: int) => income < prm.allowanceIncomeCap, p.income), AllowanceAgeFor(p, prm)];
    var gs := [AllowanceResidenceFor(q, prm), AllowancePartnered(q.maritalStatus), q.partnerReceivingOas,
               Lift((income: int) => income < prm.allowanceIncomeCap, q.income), AllowanceAgeFor(q, prm)];
    assert RefinesAll(fs, gs);
    ConjunctionMonotone(fs, gs);
    if FullyKnown(q) {
      AllowancePartsKnown(q, prm);
      Conjunction5(gs[0], gs[1], gs[2], gs[3], gs[4]);
    }
  }

  /** `afs_eligible` is sound. */
  lemma AfsEligibleForSound(p: Person, q: Person, prm: Parameters)
    requires PersonRefines(p, q)
    ensures Refines(AfsEligibleFor(p, prm), AfsEligibleFor(q, prm))
    ensures FullyKnown(q) ==> AfsEligibleFor(q, prm).known
  {
    AllowancePartsSound(p, q, prm);
    var fs := [AfsAgeFor(p, prm), AfsWidowed(p.maritalStatus),
               Lift((income: int) => income < prm.afsIncomeCap, p.income), AfsResidenceFor(p, prm)];
    var gs := [AfsAgeFor(q, prm), AfsWidowed(q.maritalStatus),
               Lift((income: int) => income < prm.afsIncomeCap, q.income), AfsResidenceFor(q, prm)];
    assert RefinesAll(fs, gs);
    ConjunctionMonotone(fs, gs);
    if FullyKnown(q) {
      AllowancePartsKnown(q, prm);
      Conjunction4(gs[0], gs[1], gs[2], gs[3]);
    }
  }
}
