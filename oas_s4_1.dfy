/**
 * Section 4.1 of the Old Age Security Act: a person is presumed to meet the
 * residence requirements when the Minister intends to waive the application,
 * the prescribed information is available, and nothing points the other way.
 */
module OasSection4Dot1 {
  import opened ThreeValued

  /** `oas_s4_dot_1_satisfied`: all three conditions. */
  function PresumedResidence(ministerIntends: Fact, informationAvailable: Fact, noContraryEvidence: Fact): (r: Fact)
    ensures r == Conjunction([ministerIntends, informationAvailable, noContraryEvidence])
  {
    Conjunction3(ministerIntends, informationAvailable, noContraryEvidence);
    var allKnown := ministerIntends.known && informationAvailable.known && noContraryEvidence.known;
    var anyFalse := (!ministerIntends.value && ministerIntends.known) ||
                    (!informationAvailable.value && informationAvailable.known) ||
                    (!noContraryEvidence.value && noContraryEvidence.known);
    Known(ministerIntends.value && informationAvailable.value && noContraryEvidence.value, allKnown || anyFalse)
  }

  /**
   * The known flag holds when all three are known or one is known false, and
   * not when none is known; when it holds, every possible actual value of the
   * three conditions gives the reported result.
   */
  lemma PresumedResidenceKnown(m: Fact, i: Fact, e: Fact)
    ensures m.known && i.known && e.known ==> PresumedResidence(m, i, e).known
    ensures (m.known && !m.value) || (i.known && !i.value) || (e.known && !e.value) ==>
      PresumedResidence(m, i, e).known
    ensures !m.known && !i.known && !e.known ==> !PresumedResidence(m, i, e).known
    ensures PresumedResidence(m, i, e).known ==>
      forall cm: bool, ci: bool, ce: bool ::
        Completes(m, cm) && Completes(i, ci) && Completes(e, ce) ==>
        PresumedResidence(m, i, e).value == (cm && ci && ce)
  {
    Conjunction3(m, i, e);
    if PresumedResidence(m, i, e).known {
      forall cm: bool, ci: bool, ce: bool | Completes(m, cm) && Completes(i, ci) && Completes(e, ce)
        ensures PresumedResidence(m, i, e).value == (cm && ci && ce)
      {
        assert Completions([m, i, e], [cm, ci, ce]);
        ConjunctionSound([m, i, e], [cm, ci, ce]);
        assert AllTrue([cm, ci, ce]) == (cm && ci && ce);
      }
    }
  }
}
