# openfisca-canada: explanations and three-valued eligibility rules

This project models two parts of openfisca-canada, an OpenFisca encoding of
the Old Age Security Act (OAS) and related rules, and proves properties of
them in Dafny.

**The rule files.** Every derived boolean variable `X` of the OAS, Guaranteed
Income Supplement (GIS), Allowance and Allowance for the Survivor (AFS) rules
has a companion `X_known`. The companion says whether `X` is settled given
what is known about the person's inputs. NumPy `*`, `+` and `not_` on
boolean arrays act entity by entity. So each pair `(X, X_known)` becomes one
function returning a `Fact`, a value with a known flag.

- Module `ThreeValued` defines the generic conjunction and disjunction rules
  the code's comments describe. It proves them exact: known holds precisely
  when every completion of the unknown inputs gives the same result. It also
  proves them monotone: learning more never retracts or flips a known
  answer.
- Each hand-written `_known` formula is stated against the generic rule.
  Where it agrees, that is its contract and the soundness of the whole
  rule follows.
- Where it deviates, the function is written as the code is. A lemma exhibits
  the deviation, and a corrected function is proved sound.

**Period arithmetic.** Section 2 of the Old Age Security Act (adjustment
quarters and the payment period) and section 37(1)(b) of the Interpretation
Act (the fiscal year) work on periods of whole months. A period is a start
year, a start month and a length in months.

**The explanation demo** (`demos/explanation.py`) turns an OpenFisca trace
into a dependency graph. Its nodes carry `value`, `known` and `display` lists
per entity. For each requested goal and entity, the demo prints:
- an indented natural-language explanation;
- the inputs still relevant to an unknown goal;
- whether the goal is "contingently known": every relevant input is one the
  interface never asks.

The graph is a `DependencyGraph` object mutated by methods, as networkx's
`DiGraph` is. Each pass is proved equal to a fold over the trace. The
explanation is a recursive function, and the goal loop is a method proved
against a per-entity report function.

Where the demo's comments and its code differ, the model follows the code:

- **Relevance.** The comment at `demos/explanation.py:192` says an input is
  relevant if it is not a descendant of a known variable. The code tests
  every ancestor of the leaf in the whole graph (lines 200-203). So a known
  node that is not on any path from the goal still hides the input
  (`Relevance.ShieldedByUnrelatedAncestor`).
- **Contingently known with nothing relevant.** An unknown goal with no
  remaining relevant input is reported contingently known, because the test
  at lines 214-218 is vacuous (`Relevance.NothingLeftIsContingent`).
- **Missing attributes.** A node with no `value` or no `known` attribute
  raises `KeyError` at line 149 or 150. No default applies. This happens to:
  - a dependency that has no trace entry of its own;
  - a variable without a `_known` companion.
- **A `_known` entry without its base variable.** Such an entry raises
  `KeyError` at line 139.
- **Errors.** All of these are modelled as error results
  (`TraceGraph.BuildOutcome`, `TraceGraph.OrphanDependencyFails`).

The graph is assumed acyclic, as OpenFisca traces are. A rank map that
strictly decreases along every edge witnesses this. It is a ghost parameter
of the explanation and relevance members.

## Model

Source paths are relative to the repository root.

| member | source | states |
|---|---|---|
| ThreeValued.ConjunctionKnownIffDetermined | openfisca_canada/variables/old_age_security.py:264-274 | the conjunction rule (known iff some conjunct is known false or all are known) is known exactly when every completion of the unknown conjuncts gives the same conjunction |
| ThreeValued.ConjunctionSound | openfisca_canada/variables/old_age_security_act/oas_s4.1.py:65-70 | when the conjunction rule says known, every completion of the inputs has the reported value |
| ThreeValued.DisjunctionKnownIffDetermined | openfisca_canada/variables/old_age_security.py:391-400 | the disjunction rule (known iff some disjunct is known true or all are known) is known exactly when every completion gives the same disjunction |
| ThreeValued.DisjunctionSound | openfisca_canada/variables/old_age_security.py:391-400 | when the disjunction rule says known, every completion of the inputs has the reported value |
| ThreeValued.ConjunctionMonotone | openfisca_canada/variables/old_age_security.py:264-274 | inputs that are better known never retract or flip a known conjunction |
| ThreeValued.DisjunctionMonotone | openfisca_canada/variables/old_age_security.py:391-400 | inputs that are better known never retract or flip a known disjunction |
| ThreeValued.And2Monotone | openfisca_canada/variables/old_age_security.py:442-449 | the two-operand conjunction is monotone in both operands |
| ThreeValued.Or2Monotone | openfisca_canada/variables/old_age_security.py:754-761 | the two-operand disjunction is monotone in both operands |
| ThreeValued.LiftMonotone | openfisca_canada/variables/old_age_security.py:409-422 | a test on one input (a comparison, a list lookup) carrying that input's known flag is monotone |
| ThreeValued.GatedConjunctionRefinesConjunction | openfisca_canada/variables/old_age_security_act/oas_s3.py:616-643 | a conjunction whose all-known branch also needs an extra flag claims no more than the conjunction rule; it equals that rule when the flag holds, and otherwise is known only through a known-false conjunct |
| ThreeValued.GatedConjunctionMonotone | openfisca_canada/variables/old_age_security_act/oas_s3.py:616-643 | the gated conjunction is monotone in its conjuncts and its gate |
| OldAgeSecurity.RequiredResidencyDurationAmount | openfisca_canada/variables/old_age_security.py:277-286 | 10 years when the place of residence is "CA", 20 otherwise, known with the place |
| OldAgeSecurity.ResidesInAgreementCountry | openfisca_canada/variables/old_age_security.py:206-227 | the place of residence is on the agreement-country list, known with the place |
| OldAgeSecurity.RequiredResidencyDuration | openfisca_canada/variables/old_age_security.py:301-321 | the years since 18 reach the required amount, known once both are |
| OldAgeSecurity.OasIncomeRequirement | openfisca_canada/variables/old_age_security.py:452-499 | income not above the OAS maximum, known with the income; monotone by `OldAgeSecurity.OasRequirementsMonotone` |
| OldAgeSecurity.OasAgeRequirement | openfisca_canada/variables/old_age_security.py:500-547 | age at least the eligibility age, known with the age |
| OldAgeSecurity.OasLegalStatusRequirement | openfisca_canada/variables/old_age_security.py:323-372 | the status is a qualifying one, known with the status |
| OldAgeSecurity.OasDurationRequirement | openfisca_canada/variables/old_age_security.py:277-321 | the years since 18 reach 10 for residents of Canada and 20 otherwise, known once the years and the place are |
| OldAgeSecurity.OasResidencyRequirement | openfisca_canada/variables/old_age_security.py:373-451 | resident in Canada, or in an agreement country and eligible under the agreement; the disjunction rule on the Canadian test and the conjunction rule on the foreign one |
| OldAgeSecurity.ForeignResidency | openfisca_canada/variables/old_age_security.py:425-449 | the hand-written known formula equals the conjunction rule on the agreement-country and agreement-eligibility facts |
| OldAgeSecurity.ResidencyRequirement | openfisca_canada/variables/old_age_security.py:373-400 | the hand-written known formula equals the disjunction rule on Canadian and foreign residency |
| OldAgeSecurity.OasEligible | openfisca_canada/variables/old_age_security.py:244-274 | value is the five-way conjunction; the known flag is "all five known, or income, age, duration or residency known false", because the legal-status short cut is never true |
| OldAgeSecurity.OasEligibleCorrected | openfisca_canada/variables/old_age_security.py:256-274 | with the legal-status term testing the value, the formula is exactly the five-way conjunction rule |
| OldAgeSecurity.OasEligibleForValue | openfisca_canada/variables/old_age_security.py:244-545 | a person is OAS eligible iff income is at most the maximum, age reaches the eligibility age, the legal status qualifies, the years since 18 reach 10 (in Canada) or 20, and the person resides in Canada or in an agreement country under which they qualify |
| OldAgeSecurity.OasRequirementsMonotone | openfisca_canada/variables/old_age_security.py:301-545 | each of the five OAS requirements is monotone in the person's inputs |
| OldAgeSecurity.OasRequirementsKnown | openfisca_canada/variables/old_age_security.py:301-545 | for a person whose inputs are all known, each requirement is known |
| OldAgeSecurity.OasEligibleForSound | openfisca_canada/variables/old_age_security.py:244-274 | OAS eligibility as written is monotone in the person's inputs and known for a fully known person |
| OldAgeSecurity.OasEligibleForCorrectedSound | openfisca_canada/variables/old_age_security.py:256-274 | the corrected OAS eligibility is monotone and known for a fully known person |
| OldAgeSecurity.OasEligibleRefinedByCorrected | openfisca_canada/variables/old_age_security.py:266-274 | whatever the as-written flag claims, the corrected flag claims too, with the same value |
| OldAgeSecurity.OasEligibleMissesKnownFalseLegalStatus | openfisca_canada/variables/old_age_security.py:270 | with legal status known false and the other four unknown, the as-written flag is false, yet every completion is ineligible and the corrected flag is true |
| OldAgeSecurity.GisIncomeMaxSelection | openfisca_canada/variables/old_age_security.py:620-649 | the maximum is the two-recipient amount when the partner receives OAS, else the partnered amount for married or common-law people, else the single amount; it is known iff the person is known not partnered or both marital status and the partner flag are known |
| OldAgeSecurity.GisPartnered | openfisca_canada/variables/old_age_security.py:652-673 | married or common-law, known with the marital status |
| OldAgeSecurity.GisIncomeMax | openfisca_canada/variables/old_age_security.py:620-649 | the maximum is one of the three GIS amounts; known iff the marital status is known and the person is single or the partner flag is known (which amount, by `OldAgeSecurity.GisIncomeMaxSelection`) |
| OldAgeSecurity.GisIncome | openfisca_canada/variables/old_age_security.py:597-618 | income strictly below the maximum, known once both are |
| OldAgeSecurity.GisAge | openfisca_canada/variables/old_age_security.py:575-595 | age at least the eligibility age, known with the age |
| OldAgeSecurity.GisIncomeMaxUnsound | openfisca_canada/variables/old_age_security.py:626-649 | for a single person with the partner flag unknown, the as-written maximum is reported known but changes when the partner flag becomes known |
| OldAgeSecurity.GisIncomeMaxCorrectedMonotone | openfisca_canada/variables/old_age_security.py:620-649 | with the partner test applied only to partnered people, the maximum is monotone and known for a fully known person |
| OldAgeSecurity.GisEligible | openfisca_canada/variables/old_age_security.py:548-572 | value is the three-way conjunction; known iff OAS or income is known false, age is known TRUE, or all three are known |
| OldAgeSecurity.GisEligibleCorrected | openfisca_canada/variables/old_age_security.py:559-572 | with `not_` restored in the age term, the formula is exactly the conjunction rule |
| OldAgeSecurity.GisEligibleAgeShortCircuitUnsound | openfisca_canada/variables/old_age_security.py:570-572 | with OAS eligibility and income unknown and age known true, the as-written GIS flag is known although the completions disagree |
| OldAgeSecurity.GisEligibleForCorrectedSound | openfisca_canada/variables/old_age_security.py:548-649 | with the OAS, income-maximum and age corrections, GIS eligibility is monotone and known for a fully known person |
| OldAgeSecurity.AllowanceEligible | openfisca_canada/variables/old_age_security.py:702-734 | the hand-written known formula equals the five-way conjunction rule |
| OldAgeSecurity.AllowanceResidence | openfisca_canada/variables/old_age_security.py:737-761 | the known formula equals the disjunction rule on Canadian and foreign residence |
| OldAgeSecurity.AllowanceResidenceCanadian | openfisca_canada/variables/old_age_security.py:764-788 | the known formula equals the conjunction rule on status and duration |
| OldAgeSecurity.AllowanceResidenceForeign | openfisca_canada/variables/old_age_security.py:840-865 | the known formula equals the three-way conjunction rule |
| OldAgeSecurity.AllowancePartnered | openfisca_canada/variables/old_age_security.py:912-937 | partnered means married or common-law, and the known flag reduces to the marital status's own |
| OldAgeSecurity.AllowanceAge | openfisca_canada/variables/old_age_security.py:986-1010 | the known formula equals the conjunction rule on the minimum age and the cap |
| OldAgeSecurity.AfsEligible | openfisca_canada/variables/old_age_security.py:1103-1134 | the known formula equals the four-way conjunction rule |
| OldAgeSecurity.AfsAge | openfisca_canada/variables/old_age_security.py:1137-1161 | the known formula equals the conjunction rule on the minimum age and the cap |
| OldAgeSecurity.AfsWidowed | openfisca_canada/variables/old_age_security.py:1210-1233 | widowed and neither married nor common-law is just widowed, known with the marital status |
| OldAgeSecurity.AfsResidence | openfisca_canada/variables/old_age_security.py:1260-1284 | the known formula equals the disjunction rule |
| OldAgeSecurity.AfsResidenceCanadian | openfisca_canada/variables/old_age_security.py:1287-1311 | the known formula equals the conjunction rule |
| OldAgeSecurity.AfsResidenceForeign | openfisca_canada/variables/old_age_security.py:1363-1388 | the known formula equals the three-way conjunction rule |
| OldAgeSecurity.AllowanceResidenceForValue | openfisca_canada/variables/old_age_security.py:737-909 | Allowance and AFS residence have the same value: enough years since 18, and a qualifying status or residence in an agreement country under which the person qualifies |
| OldAgeSecurity.AllowanceEligibleForValue | openfisca_canada/variables/old_age_security.py:702-1056 | Allowance eligibility iff residence, partnered, partner receiving OAS, income below the cap, and age from the minimum to below the eligibility age |
| OldAgeSecurity.AfsEligibleForValue | openfisca_canada/variables/old_age_security.py:1103-1410 | AFS eligibility iff the age band holds, the person is widowed, income is below the AFS cap and the residence requirement holds |
| OldAgeSecurity.AllowancePartsSound | openfisca_canada/variables/old_age_security.py:737-1056 | the Allowance and AFS residence and age requirements are monotone in the person's inputs |
| OldAgeSecurity.AllowanceResidenceSound | openfisca_canada/variables/old_age_security.py:737-909 | the Allowance and AFS residence requirements are monotone |
| OldAgeSecurity.AllowanceAgeSound | openfisca_canada/variables/old_age_security.py:986-1056 | the Allowance and AFS age requirements are monotone |
| OldAgeSecurity.AllowancePartsKnown | openfisca_canada/variables/old_age_security.py:737-1056 | for a fully known person those requirements are known |
| OldAgeSecurity.AllowanceEligibleForSound | openfisca_canada/variables/old_age_security.py:702-734 | Allowance eligibility is monotone and known for a fully known person |
| OldAgeSecurity.AfsEligibleForSound | openfisca_canada/variables/old_age_security.py:1103-1134 | AFS eligibility is monotone and known for a fully known person |
| OasSection3.FullPension | openfisca_canada/variables/old_age_security_act/oas_s3.py:31-68 | 3(1) is the disjunction of (a), (b) and (c) under the disjunction rule |
| OasSection3.FullPensionB | openfisca_canada/variables/old_age_security_act/oas_s3.py:102-139 | 3(1)(b) is the three-way conjunction rule |
| OasSection3.FullPensionBI | openfisca_canada/variables/old_age_security_act/oas_s3.py:175-227 | 3(1)(b)(i) is the conjunction rule on the negated pensioner flag and the age-residence test; a known-true pensioner flag makes it known false |
| OasSection3.AgeResidence | openfisca_canada/variables/old_age_security_act/oas_s3.py:229-281 | the conjunction rule on aged 25 and the residence requirement |
| OasSection3.Attained25Years | openfisca_canada/variables/old_age_security_act/oas_s3.py:298-316 | aged 25 or more on July 1, 1977, known with that age |
| OasSection3.ResidedInCanada | openfisca_canada/variables/old_age_security_act/oas_s3.py:361-380 | resident in Canada on July 1, 1977, known with the place |
| OasSection3.ResidenceRequirement | openfisca_canada/variables/old_age_security_act/oas_s3.py:318-359 | the disjunction rule on resided in Canada and the non-resident alternative |
| OasSection3.NonResidentQualification | openfisca_canada/variables/old_age_security_act/oas_s3.py:382-420 | value is "not resident and (after 18 or visa)"; the known flag is the code's, with the negated residence known flag in both branches |
| OasSection3.NonResidentQualificationCorrected | openfisca_canada/variables/old_age_security_act/oas_s3.py:399-420 | with the residence known flag used as is, the formula is the conjunction rule on the negated residence and the alternative |
| OasSection3.ResidedAfter18OrHadVisa | openfisca_canada/variables/old_age_security_act/oas_s3.py:422-450 | the disjunction rule on resided after 18 and held a visa |
| OasSection3.FullPensionC | openfisca_canada/variables/old_age_security_act/oas_s3.py:492-522 | 3(1)(c) is the three-way conjunction rule |
| OasSection3.AtMinimumAge | openfisca_canada/variables/old_age_security_act/oas_s3.py:565-583 | aged 65 or more, known with the age |
| OasSection3.FullPensionCIII | openfisca_canada/variables/old_age_security_act/oas_s3.py:587-643 | 3(1)(c)(iii) is the conjunction rule on its two conjuncts, with the approval date's known flag required only in the all-known branch |
| OasSection3.FullPensionCIIIApprovalGate | openfisca_canada/variables/old_age_security_act/oas_s3.py:640-643 | with the approval date unknown, 3(1)(c)(iii) is known iff a conjunct is known false; with it known, it is the plain conjunction rule |
| OasSection3.ApprovalGateRefines | openfisca_canada/variables/old_age_security_act/oas_s3.py:616-643 | a conjunction with a day-before-approval conjunct, gated on the approval date only in its all-known branch, never retracts or flips a known answer, except where the date becomes known while that conjunct was known false on the default day |
| OasSection3.FullPensionCIIIApprovalDateFlip | openfisca_canada/variables/old_age_security_act/oas_s3.py:587-643 | resided after 18 and, with the date unknown, not 40 years resident on the day before the default date: known false; with the date known and 40 years on the real day: known true; the corrected rule leaves the first case unknown |
| OasSection3.FullPensionCIIICorrected | openfisca_canada/variables/old_age_security_act/oas_s3.py:616-643 | the corrected 3(1)(c)(iii) is the conjunction rule on "resided after 18" and the 40-years fact counted known only once the date is known; with the date unknown it is known iff "resided after 18" is known false |
| OasSection3.FullPensionCIIICorrectedAgrees | openfisca_canada/variables/old_age_security_act/oas_s3.py:616-643 | the corrected 3(1)(c)(iii) has the value of the rule as written, is never better known, and is the same once the approval date is known |
| OasSection3.FullPensionCForSound | openfisca_canada/variables/old_age_security_act/oas_s3.py:492-643 | 3(1)(c) as written never retracts or flips a known answer as the pensioner flag, the age, the residence facts or the approval date become better known, except where the date becomes known while the 40-years fact on the default day was known false |
| OasSection3.FullPensionCForCorrectedSound | openfisca_canada/variables/old_age_security_act/oas_s3.py:492-643 | 3(1)(c) on the corrected 3(1)(c)(iii) never retracts or flips a known answer, the approval date becoming known included |
| OasSection3.PartialPension | openfisca_canada/variables/old_age_security_act/oas_s3.py:693-723 | 3(2) is the conjunction rule on "not eligible for the full pension", (a) and (b); a known-true full pension makes it known false |
| OasSection3.PartialPensionMinimumAge | openfisca_canada/variables/old_age_security_act/oas_s3.py:745-761 | value is "age at least 65", and the known flag is never true, because it compares a boolean with 65 |
| OasSection3.PartialPensionMinimumAgeCorrected | openfisca_canada/variables/old_age_security_act/oas_s3.py:745-761 | with the age's own known flag, 3(2)(a) is the lifted "age at least 65" test of 3(1)(c)(ii) |
| OasSection3.PartialPensionB | openfisca_canada/variables/old_age_security_act/oas_s3.py:774-821 | the nested known formula of 3(2)(b) equals the conjunction rule on minimum, maximum and "not required, or required and resident", where the inner conjunction is gated on the approval date |
| OasSection3.PartialPensionBForValue | openfisca_canada/variables/old_age_security_act/oas_s3.py:774-867 | 3(2)(b) holds iff 10 <= years < 40 and, when years < 20, the person was resident |
| OasSection3.PartialPensionBSound | openfisca_canada/variables/old_age_security_act/oas_s3.py:789-821 | the 3(2)(b) known formula as written never retracts or flips a known answer as its parts or the approval date become better known, except where the date becomes known while the residence on the default day was known false |
| OasSection3.PartialPensionBCorrected | openfisca_canada/variables/old_age_security_act/oas_s3.py:789-821 | the corrected 3(2)(b) formula is the conjunction rule on minimum, maximum and "not required, or required and resident", the residence counted known only once the approval date is known |
| OasSection3.PartialPensionBCorrectedSound | openfisca_canada/variables/old_age_security_act/oas_s3.py:789-821 | the corrected 3(2)(b) formula never retracts or flips a known answer, the approval date becoming known included |
| OasSection3.PartialPensionBApprovalDateFlip | openfisca_canada/variables/old_age_security_act/oas_s3.py:774-821 | 15 years and, with the date unknown, not resident on the day before the default date: known false; with the date known and resident on the real day: known true; the corrected rule leaves the first case unknown |
| OasSection3.PartialPensionBForSound | openfisca_canada/variables/old_age_security_act/oas_s3.py:774-876 | 3(2)(b) as written never retracts or flips a known answer as the years, the residence or the approval date become better known, except where the date becomes known while the residence on the default day was known false |
| OasSection3.PartialPensionBForCorrectedSound | openfisca_canada/variables/old_age_security_act/oas_s3.py:774-876 | 3(2)(b) on the corrected formula never retracts or flips a known answer in the years, the residence or the approval date |
| OasSection3.WholeYears | openfisca_canada/variables/old_age_security_act/oas_s3.py:940-956 | the rounded duration `w` satisfies w <= d < w + 1, known with d |
| OasSection3.NonResidentQualificationUnsound | openfisca_canada/variables/old_age_security_act/oas_s3.py:412-420 | with residence unknown and a visa known, the as-written alternative is known true, yet it is false once the person is known resident |
| OasSection3.NonResidentQualificationCorrectedSound | openfisca_canada/variables/old_age_security_act/oas_s3.py:399-420 | the corrected alternative is monotone, and unknown on that input |
| OasSection3.ResidenceRequirementForIsCorrectWhenKnown | openfisca_canada/variables/old_age_security_act/oas_s3.py:318-420 | whenever the residence requirement built on the as-written alternative is known, its value is the one the actual facts give |
| OasSection3.ResidenceRequirementForNotMonotone | openfisca_canada/variables/old_age_security_act/oas_s3.py:337-420 | that requirement is known while residence is unknown and becomes unknown when the person is known not resident |
| OasSection3.PartialPensionKnownWithoutMinimumAge | openfisca_canada/variables/old_age_security_act/oas_s3.py:705-761 | with the as-written 3(2)(a), 3(2) is known iff the full pension is known to apply or (b) is known false |
| OasSection3.PartialPensionKnownWithCorrectedMinimumAge | openfisca_canada/variables/old_age_security_act/oas_s3.py:705-761 | with the corrected 3(2)(a), 3(2) is known for known inputs; the as-written one misses exactly the case "not full pension and (b) holds" |
| OasSection4.EligibleUnderPartI | openfisca_canada/variables/old_age_security_act/oas_s4.py:24-56 | the nested known formula of 4(1) equals the conjunction rule on "not a 1977 pensioner" and the disjunction rule on (a) and (b) |
| OasSection4.EligibleUnderPartIKnownCases | openfisca_canada/variables/old_age_security_act/oas_s4.py:42-56 | 4(1) is known iff the pensioner flag is known true, or the disjunction is known and false, or both parts are known; the disjunction is known iff either side is known true or both are known |
| OasSection4.LegallyResident | openfisca_canada/variables/old_age_security_act/oas_s4.py:136-152 | legal residence and its known flag are those of the regulations, unchanged |
| OasSection4.CitizenOrLegallyResident | openfisca_canada/variables/old_age_security_act/oas_s4.py:67-86 | citizen (by enumeration member, the corrected test) or legally resident; known iff the date is known and the disjunction rule says known |
| OasSection4.ParagraphA | openfisca_canada/variables/old_age_security_act/oas_s4.py:61-86 | on the corrected citizen test, 4(1)(a) holds iff a citizen or legally resident the day before approval, and is never known while the approval date is unknown |
| OasSection4.ParagraphB | openfisca_canada/variables/old_age_security_act/oas_s4.py:91-116 | on the corrected citizen test, 4(1)(b) holds iff a citizen or legally resident the day before ceasing to reside, and is never known while that date is unknown |
| OasSection4.CitizenOrLegallyResidentMonotone | openfisca_canada/variables/old_age_security_act/oas_s4.py:67-116 | each paragraph never retracts or flips a known answer as its date becomes known or the status and the regulations' answer read on the day before it become better known; once the date becomes known those facts may be any facts of the real day |
| OasSection4.EligibleUnderPartISound | openfisca_canada/variables/old_age_security_act/oas_s4.py:24-116 | 4(1) never retracts or flips a known answer as the pensioner flag becomes better known, either date becomes known, or the facts read on the day before each date become better known; once a date becomes known its facts may be any facts of the real day |
| OasSection4.CitizenAsWritten | openfisca_canada/variables/old_age_security_act/oas_s4.py:69 | the citizen test as written, a comparison of the status with a string, is false for every status and carries the status's known flag |
| OasSection4.CitizenOrLegallyResidentAsWritten | openfisca_canada/variables/old_age_security_act/oas_s4.py:67-86 | on the citizen test as written, a paragraph holds iff the regulations call the person legally resident; known iff the date is known and the disjunction rule on the two tests says known |
| OasSection4.CitizenOrLegallyResidentAsWrittenMonotone | openfisca_canada/variables/old_age_security_act/oas_s4.py:67-116 | the paragraph on the citizen test as written is sound in the same sense as the corrected one, the date becoming known included |
| OasSection4.CitizenStringComparisonMissesCitizen | openfisca_canada/variables/old_age_security_act/oas_s4.py:69-86 | a citizen whom the regulations do not call legally resident, date known: known false as written, known true on the test by enumeration member; on every other status the two agree |
| OasSection4Dot1.PresumedResidence | openfisca_canada/variables/old_age_security_act/oas_s4.1.py:40-70 | the known formula of 4.1 equals the three-way conjunction rule |
| OasSection4Dot1.PresumedResidenceKnown | openfisca_canada/variables/old_age_security_act/oas_s4.1.py:65-70 | known when all three are known or one is known false, not when none is known, and then every completion gives the reported value |
| Periods.MonthIndexRoundTrip | openfisca_canada/variables/old_age_security_act/oas_s2.py:29-36 | numbering months consecutively is a bijection between (year, month) pairs and integers |
| Periods.PeriodAt | openfisca_canada/variables/old_age_security_act/oas_s2.py:29-36 | the period built from a month number starts at that month and has the given size |
| OasSection2.FirstAdjustmentQuarter | openfisca_canada/variables/old_age_security_act/oas_s2.py:20-36 | raises PeriodMismatchError unless the period is three months from January, April, July or October; otherwise a three-month quarter starting five months earlier |
| OasSection2.SecondAdjustmentQuarter | openfisca_canada/variables/old_age_security_act/oas_s2.py:120-136 | the same error condition; otherwise a three-month quarter starting eight months earlier |
| OasSection2.AdjustmentQuartersAdjacent | openfisca_canada/variables/old_age_security_act/oas_s2.py:29-36 | the second quarter ends the month before the first begins, the first ends two months before the payment quarter, and both start in February, May, August or November |
| OasSection2.AdjustmentQuartersByOffset | openfisca_canada/variables/old_age_security_act/oas_s2.py:129-136 | each adjustment quarter is the three-month period five (or eight) months before the payment quarter |
| OasSection2.PaymentPeriod | openfisca_canada/variables/old_age_security_act/oas_s2.py:48-83 | raises PeriodMismatchError exactly for periods that are not one month long; otherwise the result contains the month |
| OasSection2.PaymentPeriodBranchesPartition | openfisca_canada/variables/old_age_security_act/oas_s2.py:76-81 | for a one-month period exactly one of the three branch conditions holds, so the result is always assigned |
| OasSection2.PaymentPeriodCases | openfisca_canada/variables/old_age_security_act/oas_s2.py:59-81 | before April 1998 the fiscal year; April 1998 to June 1999 the 15-month period from April 1998; from July 1999 a 12-month period starting in July |
| OasSection2.LatePaymentPeriodUnique | openfisca_canada/variables/old_age_security_act/oas_s2.py:67-81 | from July 1999 the result is the only July-to-June year containing the month |
| InterpretationAct.FiscalYear | openfisca_canada/variables/interpretation_act/ia_s37.py:15-28 | a 12-month period starting in April that contains the start month; January to March belong to the year begun the previous April |
| InterpretationAct.FiscalYearUnique | openfisca_canada/variables/interpretation_act/ia_s37.py:22-28 | any April-to-March year containing the start month is the one returned |
| InterpretationAct.FiscalYearOfStart | openfisca_canada/variables/interpretation_act/ia_s37.py:22-23 | the result depends only on the period's start year and month |
| Strings.ReplaceAbsent | demos/explanation.py:138 | `str.replace` leaves a string without the pattern unchanged |
| Strings.ReplaceCharAppend | demos/explanation.py:169 | replacing a single character distributes over concatenation |
| Strings.ReplaceCharRemoves | demos/explanation.py:169 | after replacing a character by text free of it, none is left |
| Strings.ReplaceCharKeeps | demos/explanation.py:169 | replacing a character adds no other character the replacement lacks |
| Strings.ReplaceUniqueOccurrence | demos/explanation.py:138 | a pattern whose last character occurs once in it, in text free of that character elsewhere, is replaced exactly once |
| Strings.NatToString | demos/explanation.py:169 | `str(n)` is a non-empty string of decimal digits with no leading zero |
| Strings.NatToStringRoundTrip | demos/explanation.py:169 | reading back the digits of `str(n)` gives n |
| Strings.IntToString | demos/explanation.py:169 | `str(i)` is the decimal digits of i, non-empty and without a leading zero, with a minus sign before a negative number |
| TraceGraph.CompanionOfKnownKey | demos/explanation.py:137-138 | `name_known<period>` contains the marker and is read as a companion of exactly `name<period>` |
| TraceGraph.ExtendElements | demos/explanation.py:134-135 | adding edges one by one gives exactly the old and the new targets, with no target twice |
| TraceGraph.ExtendDistinct | demos/explanation.py:134-135 | adding distinct new edges appends them in order |
| TraceGraph.DedupProperties | demos/explanation.py:134-135 | a node's successor list holds each listed dependency once, in order of first mention, and equals the list when it has no repeats |
| TraceGraph.WithEdgeEffect | demos/explanation.py:135 | `add_edge(u, w)` creates `w`, appends it to `u`'s list if new, and changes no attribute and no other list |
| TraceGraph.WithEdgesEffect | demos/explanation.py:134-135 | the edges of one entry create its dependencies as nodes and extend only its own list |
| TraceGraph.WithEdgesClosed | demos/explanation.py:134-135 | every edge still ends at a node and no successor list has repeats |
| TraceGraph.Pass1Shape | demos/explanation.py:131-135 | after the first pass the nodes are the defined variables and their dependencies, only defined variables have a value, and no known or display attribute is set |
| TraceGraph.Pass1Entries | demos/explanation.py:131-135 | each defined variable's node carries its entry's value list and its dependencies in listed order without repeats; other nodes have no edges |
| TraceGraph.Pass1 | demos/explanation.py:131-135 | the first pass as a fold over the trace; what it builds is `TraceGraph.Pass1Shape` and `TraceGraph.Pass1Entries` |
| TraceGraph.Pass2Frame | demos/explanation.py:136-139 | the second pass changes nothing but `known` |
| TraceGraph.Pass2Success | demos/explanation.py:136-139 | the second pass succeeds iff every companion's base variable is a node |
| TraceGraph.Pass2 | demos/explanation.py:136-139 | the second pass as a fold over the trace; its outcome is `TraceGraph.Pass2Success`, `TraceGraph.Pass2FirstError`, `TraceGraph.Pass2KnownNodes` and `TraceGraph.Pass2KnownValues` |
| TraceGraph.Pass2FirstError | demos/explanation.py:136-139 | a failing second pass raises KeyError naming the first companion's missing base node |
| TraceGraph.Pass2KnownNodes | demos/explanation.py:136-139 | after the second pass the nodes with a known attribute are those that had one and those named by some companion |
| TraceGraph.Pass2KnownValues | demos/explanation.py:139 | a node's known list is the value list of the last companion naming it |
| TraceGraph.Pass2ErrorPersists | demos/explanation.py:136-139 | once the second pass has failed on a prefix of the trace, it fails the same way on the whole trace |
| TraceGraph.DisplayRowsStep | demos/explanation.py:148-154 | annotating one more node changes the display map at that node only |
| TraceGraph.AnnotateMissing | demos/explanation.py:149-150 | a node without a value or known attribute makes the display pass raise |
| TraceGraph.AnnotateComplete | demos/explanation.py:148-154 | with every attribute present, the display pass replaces every node's display list and nothing else |
| TraceGraph.AnnotateOutcome | demos/explanation.py:148-154 | the display pass succeeds iff every node has value and known; then only display changes, and each node's display is its value where known is truthy and "unknown" elsewhere, as long as the shorter list |
| TraceGraph.Annotate | demos/explanation.py:148-154 | the third pass; its outcome is `TraceGraph.AnnotateOutcome` |
| TraceGraph.BuildOutcome | demos/explanation.py:130-154 | building succeeds iff every companion names a node and every node is defined and has a companion; then the graph has the first pass's edges, all attributes and the display rows |
| TraceGraph.BuildSpec | demos/explanation.py:130-154 | the three passes in order, stopping at the first error; its outcome is `TraceGraph.BuildOutcome` |
| TraceGraph.OrphanDependencyFails | demos/explanation.py:131-149 | a dependency without its own entry makes the build raise KeyError('value') |
| TraceGraph.DependencyGraph.constructor | demos/explanation.py:130 | `nx.DiGraph()` is the empty graph |
| TraceGraph.DependencyGraph.AddNode | demos/explanation.py:133 | creates the node if needed and sets its value |
| TraceGraph.DependencyGraph.AddEdge | demos/explanation.py:135 | creates missing endpoints and appends the edge once, keeping an existing edge's place |
| TraceGraph.DependencyGraph.SetKnown | demos/explanation.py:139 | sets `known` on an existing node, and fails leaving the graph unchanged on a missing one |
| TraceGraph.DependencyGraph.SetDisplay | demos/explanation.py:154 | sets the node's display list only |
| TraceGraph.AddTraceEntries | demos/explanation.py:131-135 | the mutated graph equals the first-pass fold over the trace |
| TraceGraph.AddDependencies | demos/explanation.py:134-135 | the mutated graph equals adding the entry's edges in order |
| TraceGraph.AttachKnown | demos/explanation.py:136-139 | on success the graph equals the second-pass fold; otherwise it reports that fold's KeyError |
| TraceGraph.BuildDisplayRow | demos/explanation.py:151-153 | the display list built by the zip loop is the display row of the value and known lists |
| TraceGraph.AnnotateDisplay | demos/explanation.py:148-154 | raises iff the display pass does; on success the graph equals the annotated graph |
| TraceGraph.BuildGraph | demos/explanation.py:130-154 | raises iff the three-pass specification does; otherwise returns that graph |
| Explanation.Spaces | demos/explanation.py:166 | `' ' * n` is n spaces |
| Explanation.ReplaceOpeningBracket | demos/explanation.py:169 | in `base<period>` the single "<" becomes " as of " |
| Explanation.DropClosingBracket | demos/explanation.py:169 | the single final ">" is removed |
| Explanation.RenderVariable | demos/explanation.py:169 | a variable `base<period>` is rendered `base as of period` |
| Explanation.RenderNameHasNoBrackets | demos/explanation.py:169 | no angle bracket is left in any rendered name |
| Explanation.ExplainIsPreorder | demos/explanation.py:165-173 | the explanation is the lines of the depth-first pre-order traversal from the goal, children in adjacency order, each two spaces deeper; it raises exactly when one of those lines does |
| Explanation.Explain | demos/explanation.py:165-173 | `generate_explanation` on a node: its line, then its children's explanations two spaces deeper; what it produces is `Explanation.ExplainIsPreorder` |
| Explanation.ExplainChildrenIsPreorder | demos/explanation.py:171-172 | the children's explanations are the lines of their pre-order traversals, one after the other |
| Explanation.LinesRaise | demos/explanation.py:169 | the lines raise IndexError iff some visited node has no display entry for the entity |
| Explanation.ExplainEnds | demos/explanation.py:167-173 | every explanation ends with the line of a node without dependencies, so with ", and\n" |
| Explanation.ExplainChildrenEnds | demos/explanation.py:171-172 | a non-empty list of children's explanations ends with ", and\n" |
| Explanation.ExplanationDropsFinalConnector | demos/explanation.py:187 | the `[:-6]` slice removes exactly the final ", and\n", and the text starts with the goal's own line |
| Explanation.ExplanationRaises | demos/explanation.py:165-187 | the printed explanation raises iff the goal or some node below it has no display entry for the entity |
| Explanation.ExplainChildrenRaisePersists | demos/explanation.py:171-172 | once some children's explanations have raised, the whole list raises |
| Explanation.FormatLine | demos/explanation.py:166-169 | the goal's own line: indent, rendered name, " is ", the display value, the connector and a newline |
| Explanation.GenerateExplanation | demos/explanation.py:165-173 | the loop over the successors returns the recursive explanation, or None where it raises |
| Relevance.DescendantsAreReachable | demos/explanation.py:195 | `descendants(G, u)` is exactly the set of nodes reachable from u by one edge or more |
| Relevance.ReachedDescendants | demos/explanation.py:195 | the end of every path of one edge or more is a descendant of its start |
| Relevance.DescendantsReached | demos/explanation.py:195 | every descendant is the end of a path from the start |
| Relevance.LeafIffNoEdges | demos/explanation.py:199 | a node has no descendants iff it has no dependencies |
| Relevance.RelevantInputsCharacterised | demos/explanation.py:193-205 | a relevant input is exactly a node without dependencies that the goal reaches and all of whose ancestors in the graph are unknown for the entity; its own display plays no part |
| Relevance.RelevantInputs | demos/explanation.py:193-205 | the remaining relevant inputs of an unknown goal, or IndexError; which ones they are is `Relevance.RelevantInputsCharacterised` |
| Relevance.ReportFor | demos/explanation.py:186-219 | the report for one goal and entity: explanation, known flag, relevant inputs and contingently known; its cases are `Relevance.KnownGoalReport` and `Relevance.ContingentlyKnownIff` |
| Relevance.RelevantInputUnshielded | demos/explanation.py:195-205 | the goal reaches every relevant input, and every node before the last on every path to it is unknown |
| Relevance.ShieldedByUnrelatedAncestor | demos/explanation.py:199-219 | an input reached from the unknown goal along unknown nodes is still dropped when a known node off that path depends on it, and the goal is then contingently known |
| Relevance.KnownGoalReport | demos/explanation.py:193-208 | a goal is known iff its display entry is not "unknown", and then it has no relevant input and is not contingently known |
| Relevance.ContingentlyKnownIff | demos/explanation.py:213-219 | contingently known iff the goal is unknown and every relevant input is unaskable |
| Relevance.NothingLeftIsContingent | demos/explanation.py:213-219 | an unknown goal with no relevant input left is contingently known |
| Relevance.ReportExplanation | demos/explanation.py:187 | the report's explanation plus ", and\n" is the generated explanation |
| Relevance.CollectReportsContents | demos/explanation.py:184-220 | collecting succeeds iff every report does, and then holds each entity's report under (goal, entity) and nothing else; otherwise it is the first error |
| Relevance.CollectReportsErrorPersists | demos/explanation.py:184-220 | an error on the first entities is the error of the whole goal |
| Relevance.GoalReportsContents | demos/explanation.py:184-220 | a goal's reports are every entity's report when none raises, and otherwise the error of the first entity that does |
| Relevance.AllReportsErrorPersists | demos/explanation.py:182-220 | an error on the first goals is the error of the whole demo |
| Relevance.AllReportsContents | demos/explanation.py:182-220 | the reports succeed iff every goal that is not a companion is a node whose entities all report; then they hold each such goal and entity's report and nothing else; otherwise they are the error of the first goal that is not a node (KeyError) or whose reports raise |
| Relevance.CheckKnownAncestor | demos/explanation.py:200-203 | the loop over the ancestors finds whether some ancestor is known, or None on IndexError |
| Relevance.CollectRelevant | demos/explanation.py:193-205 | the loop over the descendants returns the relevant inputs |
| Relevance.HasAskable | demos/explanation.py:214-217 | the flag loop finds whether some relevant input is not unaskable |
| Relevance.Report1 | demos/explanation.py:186-219 | one goal and entity: the explanation, the relevant set and the verdict |
| Relevance.ReportGoal | demos/explanation.py:184-220 | the while loop over the entities returns the goal's reports |
| Relevance.ExplainGoals | demos/explanation.py:182-220 | the loop over the goals returns the reports of every goal and entity in order, skipping companions and raising KeyError on a goal that is not a node; what those are is `Relevance.AllReportsContents` |
| Relevance.ExplainTrace | demos/explanation.py:130-220 | a failing build fails the run; otherwise the result is the reports on the built graph with the demo's unaskable list |

## Left out

- HTTP, JSON and printing: the trace and the requested goals are inputs, and each printed line becomes a field of a `Report`. The output printed before an error is not modelled.
- numpy.unique: the goals are visited in the given order, not sorted and deduplicated. The reports go into a map keyed by goal and entity, so the order matters only for which error is reported first.
- Lists as sets: `descendants`, `ancestors` and the `relevant` list are sets, because networkx's set iteration order is not specified. The order of the printed relevant list is not modelled.
- TraceGraph.AnnotateDisplay: when several nodes lack attributes, it states only that the pass raises, not which key the error names, because that depends on networkx's node order.
- TraceGraph.BuildGraph: on error it states only that building raises, for the same reason.
- Cycles: the explanation and relevance members require an acyclic graph. On a cyclic trace `generate_explanation` (lines 165-173) recurses until Python raises RecursionError.
- Values: trace values are booleans, integers and strings. Floats and their printing are left out.
- Floating-point amounts: entitlement amounts, the 3(3) ratio and the partial-pension product are not modelled. The 3(4) years of residence are exact reals.
- Parameters: age limits, income caps, maximum incomes and the agreement-country list are inputs (`OldAgeSecurity.Parameters`).
- Variables that only pass another variable through are inlined, for example `gis_eligible_age_known` and 3(1)(a).
- Period dates: a period is whole months, and a date is not modelled. A fact read on the day before approval is an `OasSection3.ApprovalDayFact`: the approval date's known flag and the fact on the day before the date variable's value. While the date is unknown that value is the variable's default, so the fact is read on the day before the default date. Period strings are not modelled.
- OasSection3.FullPensionCForSound: soundness of 3(1)(c) as written is not promised where the approval date becomes known while the 40-years fact on the default day was known false; there the rule can flip (see Findings).
- OasSection3.PartialPensionBSound: soundness of the 3(2)(b) formula as written is not promised where the approval date becomes known while the residence on the default day was known false; there the formula can flip (see Findings).
- OasSection3.PartialPensionBForSound: the same exception as `OasSection3.PartialPensionBSound`, for 3(2)(b) on the years of residence.
- Income: the income inputs read for `period.this_year` are one known integer.
- `benefits.py` and `section_3_1_b_i_applies`: Python `not` on a NumPy array has no per-entity meaning.
- Files with only statute text or TODO comments (`oas_s5.py`, `oas_s7.1.py`, `oas_s8.py`, `oas_s9.py`, `oas_s9.1.py`, `oas_s9.3.py` and the regulation files) are not part of this model.
- Rule-engine wiring in `oas_s3.py`: the duplicate class at lines 455 and 461 and the references to undefined variables are not modelled. The 3(1)(b) and 3(1)(c) facts they name are parameters.
- Legal status: the status is a datatype, and a test against an enumeration member, as in `old_age_security.py` at lines 355, 799 and 1322, is a constructor test. `oas_s4.py` instead compares the status with the string "CANADIAN_CITIZEN" (lines 69, 83, 99 and 113). That comparison is modelled as false for every status, following how OpenFisca's enumeration arrays compare with a value that is not a member. OpenFisca itself is not part of this model (see Findings).
- OasSection4.CitizenOrLegallyResident: uses the citizen test by enumeration member, not the string comparison as written; the rule as written is `OasSection4.CitizenOrLegallyResidentAsWritten`.
- OasSection4.ParagraphA: on the corrected citizen test; as written, a citizen satisfies 4(1)(a) only through legal residence.
- OasSection4.ParagraphB: on the corrected citizen test; as written, a citizen satisfies 4(1)(b) only through legal residence.

## Findings

| source | as written | input that shows it | evidently intended | confidence | as-written member | corrected member |
|---|---|---|---|---|---|---|
| openfisca_canada/variables/old_age_security.py:270 | `legal_status_false` multiplies the legal-status known flag by its own negation, so it is always false | legal status known false, the other four requirements unknown: `oas_eligible_known` is false although every completion is ineligible | multiply by `not_` of the legal-status value, like the other four terms | not executed | OldAgeSecurity.OasEligibleMissesKnownFalseLegalStatus | OldAgeSecurity.OasEligibleCorrected |
| openfisca_canada/variables/old_age_security.py:570 | `age_false` is age known times age, without `not_` | OAS eligibility and income unknown, age known true: `gis_eligible_known` is true, yet completions differ | `age_known * not_(gis_eligible_age)` | not executed | OldAgeSecurity.GisEligibleAgeShortCircuitUnsound | OldAgeSecurity.GisEligibleCorrected |
| openfisca_canada/variables/old_age_security.py:632-649 | the partner-receiving test overrides the single maximum, while the known flag counts a single person as known whatever that flag is | single, known; partner flag unknown: the maximum is reported known and changes when the partner flag is learnt | apply the two-recipient maximum only to partnered people | not executed | OldAgeSecurity.GisIncomeMaxUnsound | OldAgeSecurity.GisIncomeMaxCorrected |
| openfisca_canada/variables/old_age_security_act/oas_s3.py:412-420 | the residence known flag is negated before use in both branches | residence in 1977 unknown, visa known true: the non-resident alternative is known true; once the person is known resident it is false | use the residence known flag as is, so that the conjunction rule applies to "not resident" | not executed | OasSection3.NonResidentQualificationUnsound | OasSection3.NonResidentQualificationCorrected |
| openfisca_canada/variables/old_age_security_act/oas_s3.py:640-641 | the known-false branch of 3(1)(c)(iii) uses the 40-years fact read on the day before the approval date without the date being known; an unknown date holds its default value | resided after 18 known true, approval date unknown, 40-years fact known false on the day before the default date: known false; once the date is known, the fact on the real day can be known true and the answer true | count the day-before-approval fact only once the date is known, as the comment at lines 631-632 says the answer is not known unless the real date gives known true | not executed | OasSection3.FullPensionCIIIApprovalDateFlip | OasSection3.FullPensionCIIICorrected |
| openfisca_canada/variables/old_age_security_act/oas_s3.py:807-808 | the known-false branch of the inner 3(2)(b) conjunction uses the residence read on the day before the approval date without the date being known | 15 years known, approval date unknown, not resident on the day before the default date: known false; once the date is known, resident on the real day makes it known true | gate the residence's known-false branch on the approval date too, as the all-known branch at line 809 is | not executed | OasSection3.PartialPensionBApprovalDateFlip | OasSection3.PartialPensionBCorrected |
| openfisca_canada/variables/old_age_security_act/oas_s4.py:69 | the citizen test compares the legal status, an enumeration, with the string "CANADIAN_CITIZEN" (also at lines 83, 99 and 113), which never matches | a citizen whom the regulations do not call legally resident, approval date known: 4(1)(a) is known false | compare with the enumeration member `legal_status_options.CANADIAN_CITIZEN`, as `old_age_security.py` does at line 355 | not executed | OasSection4.CitizenStringComparisonMissesCitizen | OasSection4.CitizenOrLegallyResident |
| openfisca_canada/variables/old_age_security_act/oas_s3.py:761 | the known flag compares `age_known` (a boolean) with 65 | any age, known: `oas_s3_2_a_minimum_age_known` is false, so 3(2) is never known through (a) | return `age_known` | not executed | OasSection3.PartialPensionKnownWithoutMinimumAge | OasSection3.PartialPensionKnownWithCorrectedMinimumAge |
