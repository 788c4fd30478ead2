/**
 * Which inputs still matter for an unknown goal, and whether the goal is
 * "contingently known" (demos/explanation.py, lines 182-220).
 *
 * For a goal whose display entry is "unknown", a leaf of the graph (a node
 * without dependencies) reachable from the goal is a remaining relevant
 * input when no ancestor of it anywhere in the graph is known for the
 * entity.  The goal is contingently known when it is unknown and every
 * remaining relevant input is on the caller's list of inputs that will
 * never be asked.  The demo prints these facts; here each goal and entity
 * gets a `Report`.
 */
module Relevance {
  import opened Strings
  import opened TraceGraph
  import opened Explanation

  /** networkx `descendants(G, u)`: the nodes reachable from `u` by one edge or more. */
  function Descendants(g: Graph, ghost rank: map<string, nat>, u: string): (r: set<string>)
    requires Ranked(g, rank) && u in g.adj
    ensures r <= g.adj.Keys
    decreases rank[u], 1, 0
  {
    DescendantsOf(g, rank, u, g.adj[u])
  }

  /** The children `kids` of `parent` and their descendants. */
  function DescendantsOf(g: Graph, ghost rank: map<string, nat>, parent: string, kids: seq<string>): (r: set<string>)
    requires Ranked(g, rank) && parent in g.adj && Children(g, rank, parent, kids)
    ensures r <= g.adj.Keys
    decreases rank[parent], 0, |kids|
  {
    if kids == [] then {}
    else
      DescendantsOf(g, rank, parent, kids[..|kids| - 1]) + {kids[|kids| - 1]}
        + Descendants(g, rank, kids[|kids| - 1])
  }

  /** `p` follows edges of `g`. */
  predicate IsPath(g: Graph, p: seq<string>) {
    |p| >= 1
    && (forall j | 0 <= j < |p| :: p[j] in g.adj)
    && forall j | 0 <= j < |p| - 1 :: p[j + 1] in g.adj[p[j]]
  }

  /** Some path of one edge or more leads from `u` to `w`. */
  ghost predicate Reaches(g: Graph, u: string, w: string) {
    exists p :: IsPath(g, p) && |p| >= 2 && p[0] == u && p[|p| - 1] == w
  }

  /** A child of `parent` and all its descendants are descendants of `parent`. */
  lemma {:induction false} ChildDescendants(g: Graph, rank: map<string, nat>, parent: string, kids: seq<string>, k: string)
    requires Ranked(g, rank) && parent in g.adj && Children(g, rank, parent, kids) && k in kids
    ensures k in DescendantsOf(g, rank, parent, kids)
    ensures Descendants(g, rank, k) <= DescendantsOf(g, rank, parent, kids)
    decreases |kids|
  {
    var init := kids[..|kids| - 1];
    if k != kids[|kids| - 1] {
      assert k in init;
      assert Children(g, rank, parent, init);
      ChildDescendants(g, rank, parent, init, k);
    }
  }

  /** A descendant is a child of `parent`, or a descendant of one. */
  lemma {:induction false} DescendantOfChild(g: Graph, rank: map<string, nat>, parent: string, kids: seq<string>, w: string)
      returns (k: string)
    requires Ranked(g, rank) && parent in g.adj && Children(g, rank, parent, kids)
    requires w in DescendantsOf(g, rank, parent, kids)
    ensures k in kids && k in g.adj && (w == k || w in Descendants(g, rank, k))
    decreases |kids|
  {
    var init := kids[..|kids| - 1];
    k := kids[|kids| - 1];
    if w != k && w !in Descendants(g, rank, k) {
      assert Children(g, rank, parent, init);
      k := DescendantOfChild(g, rank, parent, init, w);
    }
  }

  /** Every descendant is reached by a path. */
  lemma {:induction false} DescendantsReached(g: Graph, rank: map<string, nat>, u: string, w: string)
      returns (p: seq<string>)
    requires Ranked(g, rank) && u in g.adj && w in Descendants(g, rank, u)
    ensures IsPath(g, p) && |p| >= 2 && p[0] == u && p[|p| - 1] == w
    decreases rank[u]
  {
    var k := DescendantOfChild(g, rank, u, g.adj[u], w);
    if w == k {
      p := [u, w];
    } else {
      var q := DescendantsReached(g, rank, k, w);
      PathCons(g, u, q);
      p := [u] + q;
    }
  }

  /** An edge into the start of a path extends it. */
  lemma PathCons(g: Graph, u: string, p: seq<string>)
    requires IsPath(g, p) && u in g.adj && p[0] in g.adj[u]
    ensures IsPath(g, [u] + p) && ([u] + p)[0] == u && ([u] + p)[|p|] == p[|p| - 1]
  {
    var q := [u] + p;
    assert forall j | 0 <= j < |p| :: q[j + 1] == p[j];
  }

  /** Every node a path reaches is a descendant. */
  lemma {:induction false} ReachedDescendants(g: Graph, rank: map<string, nat>, p: seq<string>)
    requires Ranked(g, rank) && IsPath(g, p) && |p| >= 2
    ensures p[|p| - 1] in Descendants(g, rank, p[0])
    decreases |p|
  {
    var k := p[1];
    ChildDescendants(g, rank, p[0], g.adj[p[0]], k);
    if |p| > 2 {
      var q := p[1..];
      assert IsPath(g, q) by {
        assert forall j | 0 <= j < |q| :: q[j] == p[j + 1];
      }
      ReachedDescendants(g, rank, q);
    }
  }

  /** `descendants` is reachability. */
  lemma DescendantsAreReachable(g: Graph, rank: map<string, nat>, u: string, w: string)
    requires Ranked(g, rank) && u in g.adj
    ensures w in Descendants(g, rank, u) <==> Reaches(g, u, w)
  {
    if w in Descendants(g, rank, u) {
      var p := DescendantsReached(g, rank, u, w);
    }
    if Reaches(g, u, w) {
      var p :| IsPath(g, p) && |p| >= 2 && p[0] == u && p[|p| - 1] == w;
      ReachedDescendants(g, rank, p);
    }
  }

  /** Line 199: a node has no descendants exactly when it has no dependencies. */
  lemma LeafIffNoEdges(g: Graph, rank: map<string, nat>, u: string)
    requires Ranked(g, rank) && u in g.adj
    ensures Descendants(g, rank, u) == {} <==> g.adj[u] == []
  {
    if g.adj[u] != [] {
      ChildDescendants(g, rank, u, g.adj[u], g.adj[u][0]);
    }
  }

  /** networkx `ancestors(G, v)`: the nodes from which `v` is reachable. */
  function Ancestors(g: Graph, ghost rank: map<string, nat>, v: string): set<string>
    requires Ranked(g, rank)
  {
    set u | u in g.adj && v in Descendants(g, rank, u)
  }

  /**
   * Lines 200-203: whether some ancestor of `n` is known for entity `i`;
   * `None` when some ancestor has no display entry for it (IndexError).
   */
  function KnownAncestor(g: Graph, ghost rank: map<string, nat>, n: string, i: nat): Option<bool>
    requires Ranked(g, rank) && Annotated(g)
  {
    var ancestors := Ancestors(g, rank, n);
    if exists a | a in ancestors :: i >= |g.display[a]| then None
    else Some(exists a | a in ancestors :: g.display[a][i] != Unknown)
  }

  /** The nodes without dependencies below `goal` (lines 195 and 199). */
  function Leaves(g: Graph, ghost rank: map<string, nat>, goal: string): set<string>
    requires Ranked(g, rank) && goal in g.adj
  {
    set n | n in Descendants(g, rank, goal) && Descendants(g, rank, n) == {}
  }

  /** Lines 193-205: the remaining relevant inputs of an unknown goal, or `None` on IndexError. */
  function RelevantInputs(g: Graph, ghost rank: map<string, nat>, goal: string, i: nat): Option<set<string>>
    requires Ranked(g, rank) && Annotated(g) && goal in g.adj
  {
    var leaves := Leaves(g, rank, goal);
    if exists n | n in leaves :: KnownAncestor(g, rank, n, i).None? then None
    else Some(set n | n in leaves && KnownAncestor(g, rank, n, i) == Some(false))
  }

  /** What the demo prints for one goal and one entity. */
  datatype Report = Report(explanation: string, goalKnown: bool, relevant: set<string>, contingentlyKnown: bool)

  /** Lines 214-217: some relevant input is not on the unaskable list. */
  function AnyAskable(relevant: set<string>, unaskable: seq<string>): bool {
    exists q | q in relevant :: q !in unaskable
  }

  /** The list of inputs the demo's interface never asks for (line 213). */
  const DemoUnaskable: seq<string> := ["eligible_under_social_agreement<2021-12-01>"]

  /** Lines 186-219 for one goal and one entity. */
  function ReportFor(g: Graph, ghost rank: map<string, nat>, goal: string, i: nat, unaskable: seq<string>): Result<Report>
    requires Ranked(g, rank) && Annotated(g) && goal in g.adj
  {
    match ExplanationText(g, rank, goal, i)
    case None => Err(IndexError)
    case Some(text) =>
      if i >= |g.display[goal]| then Err(IndexError)
      else if g.display[goal][i] == Unknown then
        match RelevantInputs(g, rank, goal, i)
        case None => Err(IndexError)
        case Some(relevant) => Ok(Report(text, false, relevant, !AnyAskable(relevant, unaskable)))
      else Ok(Report(text, true, {}, false))
  }

  /** The reports of a goal for entities `0 .. n - 1` (lines 184-220), stopping at the first error. */
  function GoalReports(g: Graph, ghost rank: map<string, nat>, goal: string, n: nat, unaskable: seq<string>)
    : Result<map<(string, nat), Report>>
    requires Ranked(g, rank) && Annotated(g) && goal in g.adj
  {
    CollectReports(goal, EntityReports(g, rank, goal, n, unaskable))
  }

  /** The report, or the error, for each of the entities `0 .. n - 1`. */
  function EntityReports(g: Graph, ghost rank: map<string, nat>, goal: string, n: nat, unaskable: seq<string>)
    : seq<Result<Report>>
    requires Ranked(g, rank) && Annotated(g) && goal in g.adj
  {
    seq(n, i requires 0 <= i < n => ReportFor(g, rank, goal, i, unaskable))
  }

  /** The reports `rs` of one goal, keyed by goal and entity, or the first error among them. */
  function CollectReports(goal: string, rs: seq<Result<Report>>): Result<map<(string, nat), Report>>
    decreases |rs|
  {
    if rs == [] then Ok(map[])
    else
      match CollectReports(goal, rs[..|rs| - 1])
      case Err(e) => Err(e)
      case Ok(m) =>
        match rs[|rs| - 1]
        case Err(e) => Err(e)
        case Ok(r) => Ok(m[(goal, |rs| - 1) := r])
  }

  /**
   * Collecting succeeds exactly when every report does, and then holds each
   * entity's report under the goal and that entity and nothing else;
   * otherwise it is the first error.
   */
  lemma {:induction false} CollectReportsContents(goal: string, rs: seq<Result<Report>>)
    ensures CollectReports(goal, rs).Ok? <==> forall i | 0 <= i < |rs| :: rs[i].Ok?
    ensures CollectReports(goal, rs).Ok? ==>
              CollectReports(goal, rs).value.Keys == (set i | 0 <= i < |rs| :: (goal, i))
              && forall i | 0 <= i < |rs| :: CollectReports(goal, rs).value[(goal, i)] == rs[i].value
    ensures CollectReports(goal, rs).Err? ==>
              exists i | 0 <= i < |rs| :: rs[i].Err? && CollectReports(goal, rs) == Err(rs[i].error)
                                        && forall k | 0 <= k < i :: rs[k].Ok?
    decreases |rs|
  {
    if rs != [] {
      var init := rs[..|rs| - 1];
      CollectReportsContents(goal, init);
      assert forall i | 0 <= i < |init| :: init[i] == rs[i];
      if CollectReports(goal, init).Ok? && rs[|rs| - 1].Ok? {
        var m := CollectReports(goal, init).value;
        assert CollectReports(goal, rs).value.Keys == m.Keys + {(goal, |rs| - 1)};
        assert (set i | 0 <= i < |rs| :: (goal, i)) == (set i | 0 <= i < |init| :: (goal, i)) + {(goal, |rs| - 1)};
      }
    }
  }

  /** Collecting one more report. */
  lemma CollectReportsStep(goal: string, rs: seq<Result<Report>>, i: nat, m: map<(string, nat), Report>)
    requires i < |rs| && CollectReports(goal, rs[..i]) == Ok(m)
    ensures CollectReports(goal, rs[..i + 1]) == if rs[i].Err? then Err(rs[i].error) else Ok(m[(goal, i) := rs[i].value])
  {
    assert rs[..i + 1][..i] == rs[..i];
  }

  /** Entity `i`'s entry is its report. */
  lemma EntityReportAt(g: Graph, rank: map<string, nat>, goal: string, n: nat, unaskable: seq<string>, i: nat)
    requires Ranked(g, rank) && Annotated(g) && goal in g.adj && i < n
    ensures EntityReports(g, rank, goal, n, unaskable)[i] == ReportFor(g, rank, goal, i, unaskable)
  {
  }

  /** Once collecting the first `j` reports has failed, collecting them all fails the same way. */
  lemma {:induction false} CollectReportsErrorPersists(goal: string, rs: seq<Result<Report>>, j: nat)
    requires j <= |rs| && CollectReports(goal, rs[..j]).Err?
    ensures CollectReports(goal, rs) == CollectReports(goal, rs[..j])
    decreases |rs| - j
  {
    if j < |rs| {
      assert rs[..j + 1][..j] == rs[..j];
      CollectReportsErrorPersists(goal, rs, j + 1);
    } else {
      assert rs[..j] == rs;
    }
  }

  /**
   * The reports of a goal: every entity's report, keyed by goal and entity,
   * when none raises, and otherwise the error of the first entity that does.
   */
  lemma GoalReportsContents(g: Graph, rank: map<string, nat>, goal: string, n: nat, unaskable: seq<string>)
    requires Ranked(g, rank) && Annotated(g) && goal in g.adj
    ensures GoalReports(g, rank, goal, n, unaskable).Ok? <==>
              forall i | 0 <= i < n :: ReportFor(g, rank, goal, i, unaskable).Ok?
    ensures GoalReports(g, rank, goal, n, unaskable).Ok? ==>
              GoalReports(g, rank, goal, n, unaskable).value.Keys == (set i | 0 <= i < n :: (goal, i))
              && forall i | 0 <= i < n ::
                   GoalReports(g, rank, goal, n, unaskable).value[(goal, i)] == ReportFor(g, rank, goal, i, unaskable).value
    ensures GoalReports(g, rank, goal, n, unaskable).Err? ==>
              exists i | 0 <= i < n :: ReportFor(g, rank, goal, i, unaskable).Err?
                                       && GoalReports(g, rank, goal, n, unaskable) == Err(ReportFor(g, rank, goal, i, unaskable).error)
                                       && forall k | 0 <= k < i :: ReportFor(g, rank, goal, k, unaskable).Ok?
  {
    var rs := EntityReports(g, rank, goal, n, unaskable);
    CollectReportsContents(goal, rs);
    assert |rs| == n;
    assert forall i | 0 <= i < n :: rs[i] == ReportFor(g, rank, goal, i, unaskable);
  }

  /**
   * Lines 182-220 over the requested goals, in the order given:
   * known-companions are skipped, and a goal that is not a node raises
   * KeyError.
   */
  function AllReports(g: Graph, ghost rank: map<string, nat>, goals: seq<string>, unaskable: seq<string>)
    : Result<map<(string, nat), Report>>
    requires Ranked(g, rank) && Annotated(g)
    decreases |goals|
  {
    if goals == [] then Ok(map[])
    else
      match AllReports(g, rank, goals[..|goals| - 1], unaskable)
      case Err(e) => Err(e)
      case Ok(m) =>
        var goal := goals[|goals| - 1];
        if IsKnownKey(goal) then Ok(m)
        else if goal !in g.adj then Err(KeyError(goal))
        else
          match GoalReports(g, rank, goal, |g.value[goal]|, unaskable)
          case Err(e) => Err(e)
          case Ok(m2) => Ok(m + m2)
  }

  /** A known goal has no relevant inputs and is not contingently known. */
  lemma KnownGoalReport(g: Graph, rank: map<string, nat>, goal: string, i: nat, unaskable: seq<string>)
    requires Ranked(g, rank) && Annotated(g) && goal in g.adj
    requires ReportFor(g, rank, goal, i, unaskable).Ok?
    ensures i < |g.display[goal]|
    ensures ReportFor(g, rank, goal, i, unaskable).value.goalKnown <==> g.display[goal][i] != Unknown
    ensures ReportFor(g, rank, goal, i, unaskable).value.goalKnown ==>
              ReportFor(g, rank, goal, i, unaskable).value.relevant == {}
              && !ReportFor(g, rank, goal, i, unaskable).value.contingentlyKnown
  {
  }

  /**
   * A goal is contingently known exactly when it is unknown and every
   * remaining relevant input is unaskable, including when none remains.
   */
  lemma ContingentlyKnownIff(g: Graph, rank: map<string, nat>, goal: string, i: nat, unaskable: seq<string>)
    requires Ranked(g, rank) && Annotated(g) && goal in g.adj
    requires ReportFor(g, rank, goal, i, unaskable).Ok?
    ensures ReportFor(g, rank, goal, i, unaskable).value.contingentlyKnown <==>
              !ReportFor(g, rank, goal, i, unaskable).value.goalKnown
              && forall q | q in ReportFor(g, rank, goal, i, unaskable).value.relevant :: q in unaskable
  {
  }

  /** The explanation in a report is the generated explanation without its final ", and\n". */
  lemma ReportExplanation(g: Graph, rank: map<string, nat>, goal: string, i: nat, unaskable: seq<string>)
    requires Ranked(g, rank) && Annotated(g) && goal in g.adj
    requires ReportFor(g, rank, goal, i, unaskable).Ok?
    ensures ReportFor(g, rank, goal, i, unaskable).value.explanation + FinalConnector
         == Explain(g, rank, goal, i, 0).value
  {
    ExplanationDropsFinalConnector(g, rank, goal, i);
  }

  /**
   * A relevant input is exactly a node without dependencies that the goal
   * reaches and all of whose ancestors in the graph are unknown for the
   * entity.
   */
  lemma {:induction false} RelevantInputsCharacterised(g: Graph, rank: map<string, nat>, goal: string, i: nat)
    requires Ranked(g, rank) && Annotated(g) && goal in g.adj
    requires RelevantInputs(g, rank, goal, i).Some?
    ensures forall n :: n in RelevantInputs(g, rank, goal, i).value <==>
              n in g.adj && Reaches(g, goal, n) && g.adj[n] == []
              && forall a | a in g.adj && Reaches(g, a, n) :: i < |g.display[a]| && g.display[a][i] == Unknown
  {
    forall n
      ensures n in RelevantInputs(g, rank, goal, i).value <==>
              n in g.adj && Reaches(g, goal, n) && g.adj[n] == []
              && forall a | a in g.adj && Reaches(g, a, n) :: i < |g.display[a]| && g.display[a][i] == Unknown
    {
      DescendantsAreReachable(g, rank, goal, n);
      if n in g.adj {
        LeafIffNoEdges(g, rank, n);
        forall a | a in g.adj
          ensures a in Ancestors(g, rank, n) <==> Reaches(g, a, n)
        {
          DescendantsAreReachable(g, rank, a, n);
        }
      }
    }
  }

  /**
   * Every node but the last on every path from the goal to a relevant
   * input is unknown, and such a path exists.
   */
  lemma RelevantInputUnshielded(g: Graph, rank: map<string, nat>, goal: string, i: nat, n: string, p: seq<string>)
    requires Ranked(g, rank) && Annotated(g) && goal in g.adj
    requires RelevantInputs(g, rank, goal, i).Some? && n in RelevantInputs(g, rank, goal, i).value
    requires IsPath(g, p) && |p| >= 2 && p[0] == goal && p[|p| - 1] == n
    ensures Reaches(g, goal, n)
    ensures forall j | 0 <= j < |p| - 1 :: i < |g.display[p[j]]| && g.display[p[j]][i] == Unknown
  {
    RelevantInputsCharacterised(g, rank, goal, i);
    forall j | 0 <= j < |p| - 1
      ensures i < |g.display[p[j]]| && g.display[p[j]][i] == Unknown
    {
      PathSuffix(g, p, j);
    }
  }

  /** Every node but the last on a path reaches the last one. */
  lemma PathSuffix(g: Graph, p: seq<string>, j: nat)
    requires IsPath(g, p) && j < |p| - 1
    ensures p[j] in g.adj && Reaches(g, p[j], p[|p| - 1])
  {
    var q := p[j..];
    assert IsPath(g, q) by {
      assert forall m | 0 <= m < |q| :: q[m] == p[j + m];
    }
    assert |q| >= 2 && q[0] == p[j] && q[|q| - 1] == p[|p| - 1];
  }

  /** The graph of `ShieldedByUnrelatedAncestor`: goal `g` and known `k` both depend on `x`. */
  const ShieldGraph: Graph := Graph(
    map["g" := ["x"], "k" := ["x"], "x" := []],
    map["g" := [Bool(false)], "k" := [Bool(true)], "x" := [Bool(false)]],
    map["g" := [Bool(false)], "k" := [Bool(true)], "x" := [Bool(false)]],
    map["g" := [Unknown], "k" := [Bool(true)], "x" := [Unknown]])

  const ShieldRank: map<string, nat> := map["g" := 1, "k" := 1, "x" := 0]

  /**
   * A known ancestor off the goal's path still hides an input: `x` is
   * reached from the unknown goal `g` along a path without any known node,
   * yet it is not relevant because `k`, another ancestor of `x`, is known,
   * and the goal is reported contingently known with nothing left to ask.
   */
  lemma ShieldedByUnrelatedAncestor()
    ensures Ranked(ShieldGraph, ShieldRank) && Annotated(ShieldGraph)
    ensures IsPath(ShieldGraph, ["g", "x"]) && ShieldGraph.display["g"][0] == Unknown
    ensures RelevantInputs(ShieldGraph, ShieldRank, "g", 0) == Some({})
    ensures ReportFor(ShieldGraph, ShieldRank, "g", 0, []).Ok?
    ensures ReportFor(ShieldGraph, ShieldRank, "g", 0, []).value.contingentlyKnown
  {
    ShieldRelevant();
    ShieldExplained();
    NothingLeftIsContingent(ShieldGraph, ShieldRank, "g", 0, []);
  }

  /** An unknown goal with no remaining relevant input is reported contingently known. */
  lemma NothingLeftIsContingent(g: Graph, rank: map<string, nat>, goal: string, i: nat, unaskable: seq<string>)
    requires Ranked(g, rank) && Annotated(g) && goal in g.adj
    requires Explain(g, rank, goal, i, 0).Some?
    requires i < |g.display[goal]| && g.display[goal][i] == Unknown
    requires RelevantInputs(g, rank, goal, i) == Some({})
    ensures ReportFor(g, rank, goal, i, unaskable).Ok?
    ensures ReportFor(g, rank, goal, i, unaskable).value.contingentlyKnown
  {
  }

  lemma ShieldDescendants()
    ensures Ranked(ShieldGraph, ShieldRank)
    ensures Descendants(ShieldGraph, ShieldRank, "x") == {}
    ensures Descendants(ShieldGraph, ShieldRank, "g") == {"x"}
    ensures Descendants(ShieldGraph, ShieldRank, "k") == {"x"}
  {
    var g, rank := ShieldGraph, ShieldRank;
    assert Ranked(g, rank);
    assert ["x"][..0] == [];
    assert Descendants(g, rank, "x") == {};
    assert DescendantsOf(g, rank, "g", ["x"]) == {"x"};
    assert DescendantsOf(g, rank, "k", ["x"]) == {"x"};
  }

  lemma ShieldRelevant()
    ensures Ranked(ShieldGraph, ShieldRank) && Annotated(ShieldGraph)
    ensures RelevantInputs(ShieldGraph, ShieldRank, "g", 0) == Some({})
  {
    var g, rank := ShieldGraph, ShieldRank;
    ShieldLeaves();
    ShieldKnownAncestor();
    assert !exists n | n in Leaves(g, rank, "g") :: KnownAncestor(g, rank, n, 0).None?;
    assert (set n | n in Leaves(g, rank, "g") && KnownAncestor(g, rank, n, 0) == Some(false)) == {};
  }

  lemma ShieldLeaves()
    ensures Ranked(ShieldGraph, ShieldRank)
    ensures Leaves(ShieldGraph, ShieldRank, "g") == {"x"}
  {
    ShieldDescendants();
  }

  lemma ShieldKnownAncestor()
    ensures Ranked(ShieldGraph, ShieldRank) && Annotated(ShieldGraph)
    ensures KnownAncestor(ShieldGraph, ShieldRank, "x", 0) == Some(true)
  {
    ShieldDescendants();
    assert Ancestors(ShieldGraph, ShieldRank, "x") == {"g", "k"};
  }

  lemma ShieldExplained()
    ensures Ranked(ShieldGraph, ShieldRank) && Annotated(ShieldGraph)
    ensures Explain(ShieldGraph, ShieldRank, "g", 0, 0).Some?
  {
    var g, rank := ShieldGraph, ShieldRank;
    ShieldDescendants();
    assert ["x"][..0] == [];
    assert ExplainChildren(g, rank, "x", [], 0, 4) == Some("");
    assert Explain(g, rank, "x", 0, 2).Some?;
    assert ExplainChildren(g, rank, "g", ["x"][..0], 0, 2) == Some("");
    assert ExplainChildren(g, rank, "g", ["x"], 0, 2).Some?;
  }

  /** Lines 200-203, visiting the ancestors in any order. */
  method CheckKnownAncestor(g: Graph, ghost rank: map<string, nat>, n: string, i: nat) returns (r: Option<bool>)
    requires Ranked(g, rank) && Annotated(g)
    ensures r == KnownAncestor(g, rank, n, i)
  {
    var ancestors := Ancestors(g, rank, n);
    var todo := ancestors;
    var knownParent := false;
    while todo != {}
      invariant todo <= ancestors
      invariant forall a | a in ancestors - todo :: i < |g.display[a]|
      invariant knownParent <==> exists a | a in ancestors - todo :: g.display[a][i] != Unknown
      decreases todo
    {
      var parent :| parent in todo;
      if i >= |g.display[parent]| {
        return None;
      }
      if g.display[parent][i] != Unknown {
        knownParent := true;
      }
      todo := todo - {parent};
    }
    return Some(knownParent);
  }

  /** Lines 193-205, visiting the descendants in any order. */
  method CollectRelevant(g: Graph, ghost rank: map<string, nat>, goal: string, i: nat) returns (r: Option<set<string>>)
    requires Ranked(g, rank) && Annotated(g) && goal in g.adj
    ensures r == RelevantInputs(g, rank, goal, i)
  {
    var descendants := Descendants(g, rank, goal);
    var todo := descendants;
    var relevant: set<string> := {};
    while todo != {}
      invariant todo <= descendants
      invariant forall n | n in Leaves(g, rank, goal) && n !in todo :: KnownAncestor(g, rank, n, i).Some?
      invariant relevant == set n | n in Leaves(g, rank, goal) && n !in todo && KnownAncestor(g, rank, n, i) == Some(false)
      decreases todo
    {
      var node :| node in todo;
      if Descendants(g, rank, node) == {} {
        var knownParent := CheckKnownAncestor(g, rank, node, i);
        if knownParent.None? {
          return None;
        }
        if !knownParent.value {
          relevant := relevant + {node};
        }
      }
      todo := todo - {node};
    }
    assert !exists n | n in Leaves(g, rank, goal) :: KnownAncestor(g, rank, n, i).None?;
    assert relevant == set n | n in Leaves(g, rank, goal) && KnownAncestor(g, rank, n, i) == Some(false);
    return Some(relevant);
  }

  /** Lines 214-217. */
  method HasAskable(relevant: set<string>, unaskable: seq<string>) returns (b: bool)
    ensures b == AnyAskable(relevant, unaskable)
  {
    var todo := relevant;
    b := false;
    while todo != {}
      invariant todo <= relevant
      invariant b <==> exists q | q in relevant - todo :: q !in unaskable
      decreases todo
    {
      var q :| q in todo;
      if q !in unaskable {
        b := true;
      }
      todo := todo - {q};
    }
  }

  /** Lines 186-219 for one goal and one entity. */
  method Report1(g: Graph, ghost rank: map<string, nat>, goal: string, i: nat, unaskable: seq<string>)
    returns (r: Result<Report>)
    requires Ranked(g, rank) && Annotated(g) && goal in g.adj
    ensures r == ReportFor(g, rank, goal, i, unaskable)
  {
    var generated := GenerateExplanation(g, rank, goal, i, 0);
    if generated.None? {
      return Err(IndexError);
    }
    var explanation := DropLastSix(generated.value);
    if i >= |g.display[goal]| {
      return Err(IndexError);
    }
    var relevant: set<string> := {};
    var goalKnown := g.display[goal][i] != Unknown;
    if !goalKnown {
      var found := CollectRelevant(g, rank, goal, i);
      if found.None? {
        return Err(IndexError);
      }
      relevant := found.value;
    }
    var relevantAndAskable := HasAskable(relevant, unaskable);
    return Ok(Report(explanation, goalKnown, relevant, !relevantAndAskable && !goalKnown));
  }

  /** Lines 184-220: the reports of one goal for each of its entities. */
  method ReportGoal(g: Graph, ghost rank: map<string, nat>, goal: string, unaskable: seq<string>)
    returns (r: Result<map<(string, nat), Report>>)
    requires Ranked(g, rank) && Annotated(g) && goal in g.adj
    ensures r == GoalReports(g, rank, goal, |g.value[goal]|, unaskable)
  {
    ghost var rs := EntityReports(g, rank, goal, |g.value[goal]|, unaskable);
    var reports: map<(string, nat), Report> := map[];
    var i := 0;
    assert rs[..0] == [];
    while i < |g.value[goal]|
      invariant 0 <= i <= |g.value[goal]|
      invariant CollectReports(goal, rs[..i]) == Ok(reports)
    {
      var report := Report1(g, rank, goal, i, unaskable);
      EntityReportAt(g, rank, goal, |g.value[goal]|, unaskable, i);
      CollectReportsStep(goal, rs, i, reports);
      if report.Err? {
        CollectReportsErrorPersists(goal, rs, i + 1);
        return Err(report.error);
      }
      reports := reports[(goal, i) := report.value];
      i := i + 1;
    }
    assert rs[..i] == rs;
    return Ok(reports);
  }

  /** Lines 182-220: the reports for every requested goal and entity. */
  method ExplainGoals(g: Graph, ghost rank: map<string, nat>, goals: seq<string>, unaskable: seq<string>)
    returns (r: Result<map<(string, nat), Report>>)
    requires Ranked(g, rank) && Annotated(g)
    ensures r == AllReports(g, rank, goals, unaskable)
  {
    var reports: map<(string, nat), Report> := map[];
    var j := 0;
    while j < |goals|
      invariant 0 <= j <= |goals|
      invariant AllReports(g, rank, goals[..j], unaskable) == Ok(reports)
    {
      assert goals[..j + 1][..j] == goals[..j];
      var goal := goals[j];
      if !IsKnownKey(goal) {
        if goal !in g.adj {
          AllReportsErrorPersists(g, rank, goals, j + 1, unaskable);
          return Err(KeyError(goal));
        }
        var goalReports := ReportGoal(g, rank, goal, unaskable);
        if goalReports.Err? {
          AllReportsErrorPersists(g, rank, goals, j + 1, unaskable);
          return Err(goalReports.error);
        }
        reports := reports + goalReports.value;
      }
      j := j + 1;
    }
    assert goals[..j] == goals;
    return Ok(reports);
  }

  lemma {:induction false} AllReportsErrorPersists(g: Graph, rank: map<string, nat>, goals: seq<string>, j: nat,
                                                   unaskable: seq<string>)
    requires Ranked(g, rank) && Annotated(g)
    requires j <= |goals| && AllReports(g, rank, goals[..j], unaskable).Err?
    ensures AllReports(g, rank, goals, unaskable) == AllReports(g, rank, goals[..j], unaskable)
    decreases |goals| - j
  {
    if j < |goals| {
      assert goals[..j + 1][..j] == goals[..j];
      AllReportsErrorPersists(g, rank, goals, j + 1, unaskable);
    } else {
      assert goals[..j] == goals;
    }
  }

  /** The keys of the reports on `goals`: each entity of each goal that is a node and not a known-companion. */
  ghost function ReportKeys(g: Graph, goals: seq<string>): set<(string, nat)>
    requires Annotated(g)
  {
    set goal, i | goal in goals && !IsKnownKey(goal) && goal in g.adj && 0 <= i < |g.value[goal]| :: (goal, i)
  }

  /** One more goal adds its own entities' keys, if it is reported on. */
  lemma ReportKeysAppend(g: Graph, goals: seq<string>, goal: string)
    requires Annotated(g)
    ensures ReportKeys(g, goals + [goal]) ==
              ReportKeys(g, goals) +
              (if !IsKnownKey(goal) && goal in g.adj then set i | 0 <= i < |g.value[goal]| :: (goal, i) else {})
  {
    var all := goals + [goal];
    assert forall x | x in all :: x in goals || x == goal;
    assert forall x | x in goals :: x in all;
  }

  /** Every goal that is not a known-companion is a node whose entities all report. */
  ghost predicate GoalsReportable(g: Graph, rank: map<string, nat>, goals: seq<string>, unaskable: seq<string>)
    requires Ranked(g, rank) && Annotated(g)
  {
    forall j | 0 <= j < |goals| && !IsKnownKey(goals[j]) ::
      goals[j] in g.adj && GoalReports(g, rank, goals[j], |g.value[goals[j]]|, unaskable).Ok?
  }

  /** `m` holds the report of each entity of each goal reported on, and nothing else. */
  ghost predicate ReportsOn(g: Graph, rank: map<string, nat>, goals: seq<string>, unaskable: seq<string>,
                            m: map<(string, nat), Report>)
    requires Ranked(g, rank) && Annotated(g)
  {
    m.Keys == ReportKeys(g, goals)
    && forall goal, i | goal in goals && !IsKnownKey(goal) && goal in g.adj && 0 <= i < |g.value[goal]| ::
         (goal, i) in m && ReportFor(g, rank, goal, i, unaskable) == Ok(m[(goal, i)])
  }

  /**
   * `e` is the failure of the first goal that is not a known-companion and
   * either is not a node (KeyError) or has an entity whose report raises.
   */
  ghost predicate FirstFailure(g: Graph, rank: map<string, nat>, goals: seq<string>, unaskable: seq<string>,
                               e: Result<map<(string, nat), Report>>)
    requires Ranked(g, rank) && Annotated(g)
  {
    exists j | 0 <= j < |goals| && !IsKnownKey(goals[j]) ::
      GoalsReportable(g, rank, goals[..j], unaskable)
      && e == (if goals[j] in g.adj then GoalReports(g, rank, goals[j], |g.value[goals[j]]|, unaskable)
               else Err(KeyError(goals[j])))
      && e.Err?
  }

  /** One more goal keeps the goals reportable exactly when it is a companion or reports itself. */
  lemma GoalsReportableAppend(g: Graph, rank: map<string, nat>, goals: seq<string>, goal: string,
                              unaskable: seq<string>)
    requires Ranked(g, rank) && Annotated(g)
    ensures GoalsReportable(g, rank, goals + [goal], unaskable) <==>
              GoalsReportable(g, rank, goals, unaskable)
              && (!IsKnownKey(goal) ==> goal in g.adj && GoalReports(g, rank, goal, |g.value[goal]|, unaskable).Ok?)
  {
    var all := goals + [goal];
    assert forall j | 0 <= j < |goals| :: all[j] == goals[j];
    assert all[|goals|] == goal;
  }

  /** One more goal that is reported on adds its own reports. */
  lemma ReportsOnAppend(g: Graph, rank: map<string, nat>, goals: seq<string>, goal: string, unaskable: seq<string>,
                        m: map<(string, nat), Report>, m2: map<(string, nat), Report>)
    requires Ranked(g, rank) && Annotated(g) && ReportsOn(g, rank, goals, unaskable, m)
    requires !IsKnownKey(goal) && goal in g.adj && GoalReports(g, rank, goal, |g.value[goal]|, unaskable) == Ok(m2)
    ensures ReportsOn(g, rank, goals + [goal], unaskable, m + m2)
  {
    GoalReportsContents(g, rank, goal, |g.value[goal]|, unaskable);
    ReportKeysAppend(g, goals, goal);
    var all := goals + [goal];
    assert forall x | x in all :: x in goals || x == goal;
  }

  /** One more goal that is a known-companion adds nothing. */
  lemma ReportsOnAppendCompanion(g: Graph, rank: map<string, nat>, goals: seq<string>, goal: string,
                                 unaskable: seq<string>, m: map<(string, nat), Report>)
    requires Ranked(g, rank) && Annotated(g) && ReportsOn(g, rank, goals, unaskable, m) && IsKnownKey(goal)
    ensures ReportsOn(g, rank, goals + [goal], unaskable, m)
  {
    ReportKeysAppend(g, goals, goal);
    var all := goals + [goal];
    assert forall x | x in all :: x in goals || x == goal;
  }

  /** A failure among the first goals stays the first failure with one more goal. */
  lemma FirstFailureAppend(g: Graph, rank: map<string, nat>, goals: seq<string>, goal: string,
                           unaskable: seq<string>, e: Result<map<(string, nat), Report>>)
    requires Ranked(g, rank) && Annotated(g) && FirstFailure(g, rank, goals, unaskable, e)
    ensures FirstFailure(g, rank, goals + [goal], unaskable, e)
  {
    var j :| 0 <= j < |goals| && !IsKnownKey(goals[j]) &&
             GoalsReportable(g, rank, goals[..j], unaskable) &&
             e == (if goals[j] in g.adj then GoalReports(g, rank, goals[j], |g.value[goals[j]]|, unaskable)
                   else Err(KeyError(goals[j]))) && e.Err?;
    var all := goals + [goal];
    assert all[..j] == goals[..j] && all[j] == goals[j];
  }

  /** The last goal failing after reportable ones is the first failure. */
  lemma FirstFailureLast(g: Graph, rank: map<string, nat>, goals: seq<string>, goal: string,
                         unaskable: seq<string>, e: Result<map<(string, nat), Report>>)
    requires Ranked(g, rank) && Annotated(g) && GoalsReportable(g, rank, goals, unaskable) && !IsKnownKey(goal)
    requires e == (if goal in g.adj then GoalReports(g, rank, goal, |g.value[goal]|, unaskable) else Err(KeyError(goal)))
    requires e.Err?
    ensures FirstFailure(g, rank, goals + [goal], unaskable, e)
  {
    var all := goals + [goal];
    assert all[..|goals|] == goals && all[|goals|] == goal;
  }

  /**
   * The reports on a list of goals: when every goal that is not a
   * known-companion is a node whose entities all report, each entity's
   * report keyed by goal and entity and nothing else; otherwise the error of
   * the first goal that is not a node (KeyError) or whose reports raise.
   */
  lemma {:induction false} AllReportsContents(g: Graph, rank: map<string, nat>, goals: seq<string>,
                                              unaskable: seq<string>)
    requires Ranked(g, rank) && Annotated(g)
    ensures AllReports(g, rank, goals, unaskable).Ok? <==> GoalsReportable(g, rank, goals, unaskable)
    ensures AllReports(g, rank, goals, unaskable).Ok? ==>
              ReportsOn(g, rank, goals, unaskable, AllReports(g, rank, goals, unaskable).value)
    ensures AllReports(g, rank, goals, unaskable).Err? ==>
              FirstFailure(g, rank, goals, unaskable, AllReports(g, rank, goals, unaskable))
    decreases |goals|
  {
    if goals != [] {
      var init := goals[..|goals| - 1];
      var goal := goals[|goals| - 1];
      assert goals == init + [goal];
      AllReportsContents(g, rank, init, unaskable);
      GoalsReportableAppend(g, rank, init, goal, unaskable);
      var r := AllReports(g, rank, init, unaskable);
      if r.Err? {
        FirstFailureAppend(g, rank, init, goal, unaskable, r);
      } else if IsKnownKey(goal) {
        ReportsOnAppendCompanion(g, rank, init, goal, unaskable, r.value);
      } else if goal !in g.adj {
        FirstFailureLast(g, rank, init, goal, unaskable, Err(KeyError(goal)));
      } else {
        var reports := GoalReports(g, rank, goal, |g.value[goal]|, unaskable);
        if reports.Err? {
          FirstFailureLast(g, rank, init, goal, unaskable, reports);
        } else {
          ReportsOnAppend(g, rank, init, goal, unaskable, r.value, reports.value);
        }
      }
    }
  }


  /** The whole demo on a trace and its requested goals: build the graph, then report on every goal. */
  method ExplainTrace(t: Trace, requested: seq<string>, ghost rank: map<string, nat>)
    returns (r: Result<map<(string, nat), Report>>)
    requires Ranked(Pass1(EmptyGraph, t), rank)
    ensures BuildSpec(t).Err? ==> r.Err?
    ensures BuildSpec(t).Ok? ==>
              Ranked(BuildSpec(t).value, rank) && Annotated(BuildSpec(t).value)
              && r == AllReports(BuildSpec(t).value, rank, requested, DemoUnaskable)
  {
    BuildOutcome(t);
    var built := BuildGraph(t);
    if built.Err? {
      return Err(built.error);
    }
    r := ExplainGoals(built.value, rank, requested, DemoUnaskable);
  }
}
