/**
 * Three-valued facts as the rule files compute them: every derived value `X`
 * comes with a companion flag `X_known`. A `Known<T>` pairs the two; a `Fact`
 * is a boolean one. NumPy `*` and `+` on boolean arrays are logical and/or,
 * and every formula works entity by entity, so one entity's value is enough.
 */
module ThreeValued {

  datatype Known<T> = Known(value: T, known: bool)

  type Fact = Known<bool>

  /** `v` is a possible actual value of `a`: it agrees with `a` wherever `a` is known. */
  predicate Completes<T(==)>(a: Known<T>, v: T) {
    a.known ==> v == a.value
  }

  /** `b` knows at least what `a` knows, and with the same value. */
  predicate Refines<T(==)>(a: Known<T>, b: Known<T>) {
    a.known ==> b.known && b.value == a.value
  }

  /** `cs` assigns a possible actual value to every fact of `fs`. */
  predicate Completions(fs: seq<Fact>, cs: seq<bool>) {
    |cs| == |fs| && forall i :: 0 <= i < |fs| ==> Completes(fs[i], cs[i])
  }

  predicate RefinesAll(fs: seq<Fact>, gs: seq<Fact>) {
    |gs| == |fs| && forall i :: 0 <= i < |fs| ==> Refines(fs[i], gs[i])
  }

  /** A value that is certain. */
  function Certain<T>(v: T): Known<T> {
    Known(v, true)
  }

  /** A derived fact that depends on one input only: its known flag is the input's. */
  function Lift<T>(f: T -> bool, x: Known<T>): Fact {
    Known(f(x.value), x.known)
  }

  predicate AllTrue(vs: seq<bool>) {
    forall i :: 0 <= i < |vs| ==> vs[i]
  }

  predicate AnyTrue(vs: seq<bool>) {
    exists i :: 0 <= i < |vs| && vs[i]
  }

  function Values(fs: seq<Fact>): seq<bool> {
    seq(|fs|, i requires 0 <= i < |fs| => fs[i].value)
  }

  predicate AllKnown(fs: seq<Fact>) {
    forall i :: 0 <= i < |fs| ==> fs[i].known
  }

  predicate SomeKnownFalse(fs: seq<Fact>) {
    exists i :: 0 <= i < |fs| && fs[i].known && !fs[i].value
  }

  predicate SomeKnownTrue(fs: seq<Fact>) {
    exists i :: 0 <= i < |fs| && fs[i].known && fs[i].value
  }

  /** The conjunction rule: known if some conjunct is known false or all are known. */
  function Conjunction(fs: seq<Fact>): Fact {
    Known(AllTrue(Values(fs)), SomeKnownFalse(fs) || AllKnown(fs))
  }

  /** The disjunction rule: known if some disjunct is known true or all are known. */
  function Disjunction(fs: seq<Fact>): Fact {
    Known(AnyTrue(Values(fs)), SomeKnownTrue(fs) || AllKnown(fs))
  }

  /** `not_`: the negated value is known exactly when the value is. */
  function Negation(a: Fact): Fact {
    Known(!a.value, a.known)
  }

  /**
   * The conjunction rule with an extra condition on its all-known branch: a
   * known-false conjunct still decides it, but all conjuncts being known
   * decides it only when `gate` holds.
   */
  function GatedConjunction(fs: seq<Fact>, gate: bool): Fact {
    Known(AllTrue(Values(fs)), SomeKnownFalse(fs) || (AllKnown(fs) && gate))
  }

  /** Conjunction of two facts. */
  function And2(a: Fact, b: Fact): Fact {
    Conjunction([a, b])
  }

  /** Disjunction of two facts. */
  function Or2(a: Fact, b: Fact): Fact {
    Disjunction([a, b])
  }

  /** A possible actual value of a fact is a certain fact that refines it. */
  lemma CompletesIsRefinesCertain<T>(a: Known<T>, v: T)
    ensures Completes(a, v) <==> Refines(a, Certain(v))
  {
  }

  // ---------------------------------------------------------------------------
  // Soundness and exactness of the two connectives.
  // ---------------------------------------------------------------------------

  /**
   * The conjunction rule is exact: it reports known precisely when the
   * conjunction has the same value for every completion of the unknown inputs.
   */
  lemma ConjunctionKnownIffDetermined(fs: seq<Fact>)
    ensures Conjunction(fs).known <==>
      (forall cs :: Completions(fs, cs) ==> AllTrue(cs) == AllTrue(Values(fs)))
  {
    if Conjunction(fs).known {
      forall cs | Completions(fs, cs) ensures AllTrue(cs) == AllTrue(Values(fs)) {
        ConjunctionSound(fs, cs);
      }
    } else {
      var j :| 0 <= j < |fs| && !fs[j].known;
      var top := seq(|fs|, i requires 0 <= i < |fs| => if fs[i].known then fs[i].value else true);
      var flipped := top[j := false];
      assert Completions(fs, top);
      assert Completions(fs, flipped);
      assert AllTrue(top);
      assert !AllTrue(flipped);
    }
  }

  /** When the conjunction is known, every completion yields its value. */
  lemma ConjunctionSound(fs: seq<Fact>, cs: seq<bool>)
    requires Completions(fs, cs) && Conjunction(fs).known
    ensures AllTrue(cs) == Conjunction(fs).value
  {
    if SomeKnownFalse(fs) {
      var i :| 0 <= i < |fs| && fs[i].known && !fs[i].value;
      assert !cs[i];
      assert !Values(fs)[i];
    } else {
      assert forall i :: 0 <= i < |fs| ==> cs[i] == Values(fs)[i];
    }
  }

  /**
   * The disjunction rule is exact: it reports known precisely when the
   * disjunction has the same value for every completion of the unknown inputs.
   */
  lemma DisjunctionKnownIffDetermined(fs: seq<Fact>)
    ensures Disjunction(fs).known <==>
      (forall cs :: Completions(fs, cs) ==> AnyTrue(cs) == AnyTrue(Values(fs)))
  {
    if Disjunction(fs).known {
      forall cs | Completions(fs, cs) ensures AnyTrue(cs) == AnyTrue(Values(fs)) {
        DisjunctionSound(fs, cs);
      }
    } else {
      var j :| 0 <= j < |fs| && !fs[j].known;
      var bottom := seq(|fs|, i requires 0 <= i < |fs| => if fs[i].known then fs[i].value else false);
      var flipped := bottom[j := true];
      assert Completions(fs, bottom);
      assert Completions(fs, flipped);
      assert !AnyTrue(bottom);
      assert AnyTrue(flipped);
    }
  }

  /** When the disjunction is known, every completion yields its value. */
  lemma DisjunctionSound(fs: seq<Fact>, cs: seq<bool>)
    requires Completions(fs, cs) && Disjunction(fs).known
    ensures AnyTrue(cs) == Disjunction(fs).value
  {
    if SomeKnownTrue(fs) {
      var i :| 0 <= i < |fs| && fs[i].known && fs[i].value;
      assert cs[i];
      assert Values(fs)[i];
    } else {
      assert forall i :: 0 <= i < |fs| ==> cs[i] == Values(fs)[i];
    }
  }

  // ---------------------------------------------------------------------------
  // Monotonicity: learning more about the inputs never retracts a known result.
  // Soundness of any formula built from the connectives follows from these.
  // ---------------------------------------------------------------------------

  lemma ConjunctionMonotone(fs: seq<Fact>, gs: seq<Fact>)
    requires RefinesAll(fs, gs)
    ensures Refines(Conjunction(fs), Conjunction(gs))
  {
    if Conjunction(fs).known {
      if SomeKnownFalse(fs) {
        var i :| 0 <= i < |fs| && fs[i].known && !fs[i].value;
        assert gs[i].known && !gs[i].value;
        assert !Values(fs)[i] && !Values(gs)[i];
      } else {
        assert forall i :: 0 <= i < |fs| ==> Values(gs)[i] == Values(fs)[i];
      }
    }
  }

  lemma DisjunctionMonotone(fs: seq<Fact>, gs: seq<Fact>)
    requires RefinesAll(fs, gs)
    ensures Refines(Disjunction(fs), Disjunction(gs))
  {
    if Disjunction(fs).known {
      if SomeKnownTrue(fs) {
        var i :| 0 <= i < |fs| && fs[i].known && fs[i].value;
        assert gs[i].known && gs[i].value;
        assert Values(fs)[i] && Values(gs)[i];
      } else {
        assert forall i :: 0 <= i < |fs| ==> Values(gs)[i] == Values(fs)[i];
      }
    }
  }

  lemma And2Monotone(a: Fact, b: Fact, a': Fact, b': Fact)
    requires Refines(a, a') && Refines(b, b')
    ensures Refines(And2(a, b), And2(a', b'))
  {
    ConjunctionMonotone([a, b], [a', b']);
  }

  lemma Or2Monotone(a: Fact, b: Fact, a': Fact, b': Fact)
    requires Refines(a, a') && Refines(b, b')
    ensures Refines(Or2(a, b), Or2(a', b'))
  {
    DisjunctionMonotone([a, b], [a', b']);
  }

  lemma LiftMonotone<T>(f: T -> bool, x: Known<T>, y: Known<T>)
    requires Refines(x, y)
    ensures Refines(Lift(f, x), Lift(f, y))
  {
  }

  // ---------------------------------------------------------------------------
  // The connectives on two and three literal operands, spelled out.
  // ---------------------------------------------------------------------------

  lemma Conjunction2(a: Fact, b: Fact)
    ensures Conjunction([a, b]) ==
      Known(a.value && b.value, (a.known && !a.value) || (b.known && !b.value) || (a.known && b.known))
  {
    var fs := [a, b];
    assert SomeKnownFalse(fs) <==> (a.known && !a.value) || (b.known && !b.value) by {
      if a.known && !a.value { assert fs[0] == a; }
      if b.known && !b.value { assert fs[1] == b; }
    }
    assert AllTrue(Values(fs)) <==> a.value && b.value by {
      assert Values(fs)[0] == a.value && Values(fs)[1] == b.value;
    }
    assert AllKnown(fs) <==> a.known && b.known by {
      assert fs[0] == a && fs[1] == b;
    }
  }

  lemma Disjunction2(a: Fact, b: Fact)
    ensures Disjunction([a, b]) ==
      Known(a.value || b.value, (a.known && a.value) || (b.known && b.value) || (a.known && b.known))
  {
    var fs := [a, b];
    assert SomeKnownTrue(fs) <==> (a.known && a.value) || (b.known && b.value) by {
      if a.known && a.value { assert fs[0] == a; }
      if b.known && b.value { assert fs[1] == b; }
    }
    assert AnyTrue(Values(fs)) <==> a.value || b.value by {
      assert Values(fs)[0] == a.value && Values(fs)[1] == b.value;
    }
    assert AllKnown(fs) <==> a.known && b.known by {
      assert fs[0] == a && fs[1] == b;
    }
  }

  lemma Conjunction3(a: Fact, b: Fact, c: Fact)
    ensures Conjunction([a, b, c]) ==
      Known(a.value && b.value && c.value,
            (a.known && !a.value) || (b.known && !b.value) || (c.known && !c.value) ||
            (a.known && b.known && c.known))
  {
    var fs := [a, b, c];
    assert fs[0] == a && fs[1] == b && fs[2] == c;
    assert Values(fs)[0] == a.value && Values(fs)[1] == b.value && Values(fs)[2] == c.value;
  }

  lemma Disjunction3(a: Fact, b: Fact, c: Fact)
    ensures Disjunction([a, b, c]) ==
      Known(a.value || b.value || c.value,
            (a.known && a.value) || (b.known && b.value) || (c.known && c.value) ||
            (a.known && b.known && c.known))
  {
    var fs := [a, b, c];
    assert fs[0] == a && fs[1] == b && fs[2] == c;
    assert Values(fs)[0] == a.value && Values(fs)[1] == b.value && Values(fs)[2] == c.value;
  }

  lemma Conjunction4(a: Fact, b: Fact, c: Fact, d: Fact)
    ensures Conjunction([a, b, c, d]) ==
      Known(a.value && b.value && c.value && d.value,
            (a.known && !a.value) || (b.known && !b.value) || (c.known && !c.value) ||
            (d.known && !d.value) || (a.known && b.known && c.known && d.known))
  {
    var fs := [a, b, c, d];
    assert fs[0] == a && fs[1] == b && fs[2] == c && fs[3] == d;
    assert Values(fs)[0] == a.value && Values(fs)[1] == b.value && Values(fs)[2] == c.value;
    assert Values(fs)[3] == d.value;
  }

  lemma Conjunction5(a: Fact, b: Fact, c: Fact, d: Fact, e: Fact)
    ensures Conjunction([a, b, c, d, e]) ==
      Known(a.value && b.value && c.value && d.value && e.value,
            (a.known && !a.value) || (b.known && !b.value) || (c.known && !c.value) ||
            (d.known && !d.value) || (e.known && !e.value) ||
            (a.known && b.known && c.known && d.known && e.known))
  {
    var fs := [a, b, c, d, e];
    assert fs[0] == a && fs[1] == b && fs[2] == c && fs[3] == d && fs[4] == e;
    assert Values(fs)[0] == a.value && Values(fs)[1] == b.value && Values(fs)[2] == c.value;
    assert Values(fs)[3] == d.value && Values(fs)[4] == e.value;
  }

  lemma SomeKnownFalse2(a: Fact, b: Fact)
    ensures SomeKnownFalse([a, b]) <==> (a.known && !a.value) || (b.known && !b.value)
  {
    var fs := [a, b];
    assert fs[0] == a && fs[1] == b;
  }

  lemma SomeKnownFalse4(a: Fact, b: Fact, c: Fact, d: Fact)
    ensures SomeKnownFalse([a, b, c, d]) <==>
      (a.known && !a.value) || (b.known && !b.value) || (c.known && !c.value) || (d.known && !d.value)
  {
    var fs := [a, b, c, d];
    assert fs[0] == a && fs[1] == b && fs[2] == c && fs[3] == d;
  }

  lemma AllKnown3(a: Fact, b: Fact, c: Fact)
    ensures AllKnown([a, b, c]) <==> a.known && b.known && c.known
  {
    var fs := [a, b, c];
    assert fs[0] == a && fs[1] == b && fs[2] == c;
  }

  lemma AllKnown5(a: Fact, b: Fact, c: Fact, d: Fact, e: Fact)
    ensures AllKnown([a, b, c, d, e]) <==> a.known && b.known && c.known && d.known && e.known
  {
    var fs := [a, b, c, d, e];
    assert fs[0] == a && fs[1] == b && fs[2] == c && fs[3] == d && fs[4] == e;
  }

  /** A gated conjunction claims no more than the conjunction rule, and all of it when the gate holds. */
  lemma GatedConjunctionRefinesConjunction(fs: seq<Fact>, gate: bool)
    ensures Refines(GatedConjunction(fs, gate), Conjunction(fs))
    ensures gate ==> GatedConjunction(fs, gate) == Conjunction(fs)
    ensures !gate ==> (GatedConjunction(fs, gate).known <==> SomeKnownFalse(fs))
  {
  }

  lemma GatedConjunctionMonotone(fs: seq<Fact>, gs: seq<Fact>, gate: bool, gate': bool)
    requires RefinesAll(fs, gs) && (gate ==> gate')
    ensures Refines(GatedConjunction(fs, gate), GatedConjunction(gs, gate'))
  {
    ConjunctionMonotone(fs, gs);
    if GatedConjunction(fs, gate).known && SomeKnownFalse(fs) {
      var i :| 0 <= i < |fs| && fs[i].known && !fs[i].value;
      assert gs[i].known && !gs[i].value;
    }
  }
}
