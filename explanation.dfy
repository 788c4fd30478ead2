/**
 * The natural-language explanation of one goal for one entity
 * (demos/explanation.py, lines 165-173 and 187).
 *
 * `generate_explanation` writes one line per node, in depth-first
 * pre-order from the goal, each child indented two spaces deeper than its
 * parent:
 *     <indent><name with "<" read as " as of " and ">" dropped> is <display>, because
 * and ", and" instead of ", because" on a node without dependencies.
 * The caller then drops the last six characters, the final ", and\n".
 *
 * The demo assumes an acyclic graph (OpenFisca's traces are); here a rank
 * that strictly decreases along every edge witnesses it.
 */
module Explanation {
  import opened Strings
  import opened TraceGraph

  /** Every node has a rank, and every edge goes to a node of strictly smaller rank. */
  predicate Ranked(g: Graph, rank: map<string, nat>) {
    (forall n | n in g.adj :: n in rank)
    && forall u, w | u in g.adj && w in g.adj[u] :: w in g.adj && rank[w] < rank[u]
  }

  /** Python's `str()` of a displayed value. */
  function Show(v: Value): string {
    match v
    case Bool(b) => if b then "True" else "False"
    case Int(i) => IntToString(i)
    case Str(s) => s
  }

  /** `' ' * n` */
  function Spaces(n: nat): (s: string)
    ensures |s| == n && forall i | 0 <= i < n :: s[i] == ' '
  {
    seq(n, _ => ' ')
  }

  /** `name.replace("<", " as of ").replace(">", "")` */
  function RenderName(name: string): string {
    ReplaceAll(ReplaceAll(name, "<", " as of "), ">", "")
  }

  /** Replacing "<" in `base<period>` when neither part holds an angle bracket. */
  lemma ReplaceOpeningBracket(base: string, period: string)
    requires '<' !in base && '<' !in period
    ensures ReplaceAll(base + "<" + period + ">", "<", " as of ") == base + " as of " + period + ">"
  {
    var tail := period + ">";
    Regroup(base, "<", period, ">");
    ReplaceCharAppend(base, "<" + tail, '<', " as of ");
    ReplaceCharAbsent(base, '<', " as of ");
    ReplaceAtHead(tail);
    Regroup(base, " as of ", period, ">");
  }

  /** Concatenation regrouped to the right. */
  lemma Regroup(a: string, b: string, c: string, d: string)
    ensures a + b + c + d == a + (b + (c + d))
  {
  }

  lemma ReplaceAtHead(tail: string)
    requires '<' !in tail
    ensures ReplaceAll("<" + tail, "<", " as of ") == " as of " + tail
  {
    ReplaceCharAppend("<", tail, '<', " as of ");
    ReplaceCharAbsent(tail, '<', " as of ");
    assert ReplaceAll("<", "<", " as of ") == " as of ";
  }

  /** Dropping the final ">" when nothing before it holds one. */
  lemma DropClosingBracket(front: string)
    requires '>' !in front
    ensures ReplaceAll(front + ">", ">", "") == front
  {
    ReplaceCharAppend(front, ">", '>', "");
    ReplaceCharAbsent(front, '>', "");
    assert ReplaceAll(">", ">", "") == "";
    assert front + "" == front;
  }

  /** A variable `base<period>` is rendered `base as of period`. */
  lemma RenderVariable(base: string, period: string)
    requires '<' !in base && '>' !in base && '<' !in period && '>' !in period
    ensures RenderName(base + "<" + period + ">") == base + " as of " + period
  {
    ReplaceOpeningBracket(base, period);
    DropClosingBracket(base + " as of " + period);
  }

  /** No angle bracket is left in a rendered name. */
  lemma RenderNameHasNoBrackets(name: string)
    ensures '<' !in RenderName(name) && '>' !in RenderName(name)
  {
    var once := ReplaceAll(name, "<", " as of ");
    ReplaceCharRemoves(name, '<', " as of ");
    ReplaceCharRemoves(once, '>', "");
    ReplaceCharKeeps(once, '>', "", '<');
  }

  const Because: string := ", because"
  const AndConnector: string := ", and"

  /** Line 169: `None` when the entity has no display entry (IndexError). */
  function Line(g: Graph, n: string, entity: nat, indent: nat): Option<string>
    requires n in g.adj && n in g.display
  {
    if entity < |g.display[n]| then
      Some(Spaces(indent) + RenderName(n) + " is " + Show(g.display[n][entity])
           + (if |g.adj[n]| > 0 then Because else AndConnector) + "\n")
    else None
  }

  /** Concatenation of two outputs, either of which may have raised. */
  function Cat(a: Option<string>, b: Option<string>): Option<string> {
    if a.Some? && b.Some? then Some(a.value + b.value) else None
  }

  lemma CatAssociative(a: Option<string>, b: Option<string>, c: Option<string>)
    ensures Cat(Cat(a, b), c) == Cat(a, Cat(b, c))
  {
    if a.Some? && b.Some? && c.Some? {
      assert a.value + b.value + c.value == a.value + (b.value + c.value);
    }
  }

  /** The children of `parent` listed in `kids` all rank below it. */
  predicate Children(g: Graph, rank: map<string, nat>, parent: string, kids: seq<string>)
    requires Ranked(g, rank) && parent in g.adj
  {
    forall k | k in kids :: k in g.adj && rank[k] < rank[parent]
  }

  /** `generate_explanation(n, entity, indent)` (lines 165-173). */
  function Explain(g: Graph, ghost rank: map<string, nat>, n: string, entity: nat, indent: nat): Option<string>
    requires Ranked(g, rank) && Annotated(g) && n in g.adj
    decreases rank[n], 1, 0
  {
    Cat(Line(g, n, entity, indent), ExplainChildren(g, rank, n, g.adj[n], entity, indent + 2))
  }

  /** The explanations of the children `kids` of `parent`, in order (lines 171-172). */
  function ExplainChildren(g: Graph, ghost rank: map<string, nat>, parent: string, kids: seq<string>,
                           entity: nat, indent: nat): Option<string>
    requires Ranked(g, rank) && Annotated(g) && parent in g.adj && Children(g, rank, parent, kids)
    decreases rank[parent], 0, |kids|
  {
    if kids == [] then Some("")
    else
      Cat(ExplainChildren(g, rank, parent, kids[..|kids| - 1], entity, indent),
          Explain(g, rank, kids[|kids| - 1], entity, indent))
  }

  /** The nodes the explanation visits with their indents: depth-first pre-order from `n`. */
  function Preorder(g: Graph, ghost rank: map<string, nat>, n: string, indent: nat): seq<(string, nat)>
    requires Ranked(g, rank) && n in g.adj
    decreases rank[n], 1, 0
  {
    [(n, indent)] + PreorderChildren(g, rank, n, g.adj[n], indent + 2)
  }

  function PreorderChildren(g: Graph, ghost rank: map<string, nat>, parent: string, kids: seq<string>,
                            indent: nat): seq<(string, nat)>
    requires Ranked(g, rank) && parent in g.adj && Children(g, rank, parent, kids)
    decreases rank[parent], 0, |kids|
  {
    if kids == [] then []
    else
      PreorderChildren(g, rank, parent, kids[..|kids| - 1], indent)
        + Preorder(g, rank, kids[|kids| - 1], indent)
  }

  /** Every visit is of a node. */
  predicate AllNodes(g: Graph, ps: seq<(string, nat)>) {
    forall j | 0 <= j < |ps| :: ps[j].0 in g.adj
  }

  /** The lines of the visits `ps`, one after the other. */
  function Lines(g: Graph, ps: seq<(string, nat)>, entity: nat): Option<string>
    requires Annotated(g) && AllNodes(g, ps)
    decreases |ps|
  {
    if ps == [] then Some("")
    else Cat(Lines(g, ps[..|ps| - 1], entity), Line(g, ps[|ps| - 1].0, entity, ps[|ps| - 1].1))
  }

  /** Joining two runs of visits of nodes gives visits of nodes. */
  lemma AllNodesAppend(g: Graph, a: seq<(string, nat)>, b: seq<(string, nat)>)
    requires AllNodes(g, a) && AllNodes(g, b)
    ensures AllNodes(g, a + b)
  {
    forall j | 0 <= j < |a + b|
      ensures (a + b)[j].0 in g.adj
    {
      if j < |a| {
        assert (a + b)[j] == a[j];
      } else {
        assert (a + b)[j] == b[j - |a|];
      }
    }
  }

  /** The lines of two runs of visits, one after the other. */
  lemma {:induction false} LinesAppend(g: Graph, a: seq<(string, nat)>, b: seq<(string, nat)>, entity: nat)
    requires Annotated(g) && AllNodes(g, a) && AllNodes(g, b)
    ensures AllNodes(g, a + b)
    ensures Lines(g, a + b, entity) == Cat(Lines(g, a, entity), Lines(g, b, entity))
    decreases |b|
  {
    AllNodesAppend(g, a, b);
    if b == [] {
      assert a + b == a;
      if Lines(g, a, entity).Some? {
        assert Lines(g, a, entity).value + "" == Lines(g, a, entity).value;
      }
    } else {
      var init := b[..|b| - 1];
      assert AllNodes(g, init);
      LinesAppend(g, a, init, entity);
      assert (a + b)[..|a + b| - 1] == a + init;
      assert (a + b)[|a + b| - 1] == b[|b| - 1];
      CatAssociative(Lines(g, a, entity), Lines(g, init, entity), Line(g, b[|b| - 1].0, entity, b[|b| - 1].1));
    }
  }

  /** The visits of `Preorder` are all nodes. */
  lemma {:induction false} PreorderNodes(g: Graph, rank: map<string, nat>, n: string, indent: nat)
    requires Ranked(g, rank) && n in g.adj
    ensures AllNodes(g, Preorder(g, rank, n, indent))
    decreases rank[n], 1, 0
  {
    PreorderChildrenNodes(g, rank, n, g.adj[n], indent + 2);
  }

  lemma {:induction false} PreorderChildrenNodes(g: Graph, rank: map<string, nat>, parent: string,
                                                 kids: seq<string>, indent: nat)
    requires Ranked(g, rank) && parent in g.adj && Children(g, rank, parent, kids)
    ensures AllNodes(g, PreorderChildren(g, rank, parent, kids, indent))
    decreases rank[parent], 0, |kids|
  {
    if kids != [] {
      assert Children(g, rank, parent, kids[..|kids| - 1]);
      PreorderChildrenNodes(g, rank, parent, kids[..|kids| - 1], indent);
      PreorderNodes(g, rank, kids[|kids| - 1], indent);
    }
  }

  /**
   * The explanation is the lines of the pre-order traversal from the goal,
   * joined; it raises exactly when one of those lines does.
   */
  lemma {:induction false} ExplainIsPreorder(g: Graph, rank: map<string, nat>, n: string, entity: nat, indent: nat)
    requires Ranked(g, rank) && Annotated(g) && n in g.adj
    ensures AllNodes(g, Preorder(g, rank, n, indent))
    ensures Explain(g, rank, n, entity, indent) == Lines(g, Preorder(g, rank, n, indent), entity)
    decreases rank[n], 1, 0
  {
    var kids := g.adj[n];
    PreorderChildrenNodes(g, rank, n, kids, indent + 2);
    ExplainChildrenIsPreorder(g, rank, n, kids, entity, indent + 2);
    var head := [(n, indent)];
    assert Lines(g, head, entity) == Cat(Some(""), Line(g, n, entity, indent)) by {
      assert head[..0] == [];
    }
    if Line(g, n, entity, indent).Some? {
      assert "" + Line(g, n, entity, indent).value == Line(g, n, entity, indent).value;
    }
    LinesAppend(g, head, PreorderChildren(g, rank, n, kids, indent + 2), entity);
  }

  lemma {:induction false} ExplainChildrenIsPreorder(g: Graph, rank: map<string, nat>, parent: string,
                                                     kids: seq<string>, entity: nat, indent: nat)
    requires Ranked(g, rank) && Annotated(g) && parent in g.adj && Children(g, rank, parent, kids)
    ensures AllNodes(g, PreorderChildren(g, rank, parent, kids, indent))
    ensures ExplainChildren(g, rank, parent, kids, entity, indent)
         == Lines(g, PreorderChildren(g, rank, parent, kids, indent), entity)
    decreases rank[parent], 0, |kids|
  {
    PreorderChildrenNodes(g, rank, parent, kids, indent);
    if kids != [] {
      var init := kids[..|kids| - 1];
      var last := kids[|kids| - 1];
      assert Children(g, rank, parent, init);
      ExplainChildrenIsPreorder(g, rank, parent, init, entity, indent);
      ExplainIsPreorder(g, rank, last, entity, indent);
      PreorderChildrenNodes(g, rank, parent, init, indent);
      PreorderNodes(g, rank, last, indent);
      LinesAppend(g, PreorderChildren(g, rank, parent, init, indent), Preorder(g, rank, last, indent), entity);
    }
  }

  /** The lines of some visits raise exactly when some visited node has no display entry for the entity. */
  lemma {:induction false} LinesRaise(g: Graph, ps: seq<(string, nat)>, entity: nat)
    requires Annotated(g) && AllNodes(g, ps)
    ensures Lines(g, ps, entity).None? <==> exists j | 0 <= j < |ps| :: entity >= |g.display[ps[j].0]|
    decreases |ps|
  {
    if ps != [] {
      var init := ps[..|ps| - 1];
      assert forall j | 0 <= j < |init| :: init[j] == ps[j];
      LinesRaise(g, init, entity);
    }
  }

  /** `s` ends with `suffix`. */
  predicate EndsWith(s: string, suffix: string) {
    |suffix| <= |s| && s[|s| - |suffix|..] == suffix
  }

  /** The final connector of every explanation. */
  const FinalConnector: string := ", and\n"

  lemma EndsWithAppend(a: string, b: string, suffix: string)
    requires EndsWith(b, suffix)
    ensures EndsWith(a + b, suffix)
  {
    assert (a + b)[|a + b| - |suffix|..] == b[|b| - |suffix|..];
  }

  /** Every explanation ends with the line of a node without dependencies, so with ", and\n". */
  lemma {:induction false} ExplainEnds(g: Graph, rank: map<string, nat>, n: string, entity: nat, indent: nat)
    requires Ranked(g, rank) && Annotated(g) && n in g.adj
    requires Explain(g, rank, n, entity, indent).Some?
    ensures EndsWith(Explain(g, rank, n, entity, indent).value, FinalConnector)
    decreases rank[n], 1, 0
  {
    var kids := g.adj[n];
    var line := Line(g, n, entity, indent).value;
    if kids == [] {
      assert line == Spaces(indent) + RenderName(n) + " is " + Show(g.display[n][entity]) + FinalConnector;
      assert EndsWith(line, FinalConnector);
      assert Explain(g, rank, n, entity, indent).value == line + "";
      assert line + "" == line;
    } else {
      ExplainChildrenEnds(g, rank, n, kids, entity, indent + 2);
      EndsWithAppend(line, ExplainChildren(g, rank, n, kids, entity, indent + 2).value, FinalConnector);
    }
  }

  lemma {:induction false} ExplainChildrenEnds(g: Graph, rank: map<string, nat>, parent: string,
                                               kids: seq<string>, entity: nat, indent: nat)
    requires Ranked(g, rank) && Annotated(g) && parent in g.adj && Children(g, rank, parent, kids)
    requires kids != [] && ExplainChildren(g, rank, parent, kids, entity, indent).Some?
    ensures EndsWith(ExplainChildren(g, rank, parent, kids, entity, indent).value, FinalConnector)
    decreases rank[parent], 0, |kids|
  {
    var last := kids[|kids| - 1];
    ExplainEnds(g, rank, last, entity, indent);
    EndsWithAppend(ExplainChildren(g, rank, parent, kids[..|kids| - 1], entity, indent).value,
                   Explain(g, rank, last, entity, indent).value, FinalConnector);
  }

  /** Python's `s[:-6]`: the last six characters dropped, or nothing left of a shorter string. */
  function DropLastSix(s: string): string {
    if |s| >= 6 then s[..|s| - 6] else ""
  }

  /** The text printed for a goal and an entity (line 187). */
  function ExplanationText(g: Graph, ghost rank: map<string, nat>, goal: string, entity: nat): Option<string>
    requires Ranked(g, rank) && Annotated(g) && goal in g.adj
  {
    match Explain(g, rank, goal, entity, 0)
    case None => None
    case Some(s) => Some(DropLastSix(s))
  }

  /**
   * The slice at line 187 removes exactly the final ", and\n": the printed
   * text and that connector make up the whole generated explanation, whose
   * first line is the goal's own.
   */
  lemma ExplanationDropsFinalConnector(g: Graph, rank: map<string, nat>, goal: string, entity: nat)
    requires Ranked(g, rank) && Annotated(g) && goal in g.adj
    requires ExplanationText(g, rank, goal, entity).Some?
    ensures ExplanationText(g, rank, goal, entity).value + FinalConnector == Explain(g, rank, goal, entity, 0).value
    ensures Line(g, goal, entity, 0).Some?
    ensures StartsWith(Explain(g, rank, goal, entity, 0).value, Line(g, goal, entity, 0).value)
  {
    var s := Explain(g, rank, goal, entity, 0).value;
    ExplainEnds(g, rank, goal, entity, 0);
    assert s[..|s| - 6] + s[|s| - 6..] == s;
    var line := Line(g, goal, entity, 0).value;
    assert s[..|line|] == line;
  }

  /** The explanation raises IndexError exactly when the goal itself has no display entry, or a node below it. */
  lemma ExplanationRaises(g: Graph, rank: map<string, nat>, goal: string, entity: nat)
    requires Ranked(g, rank) && Annotated(g) && goal in g.adj
    ensures AllNodes(g, Preorder(g, rank, goal, 0))
    ensures ExplanationText(g, rank, goal, entity).None? <==>
              exists j | 0 <= j < |Preorder(g, rank, goal, 0)| ::
                entity >= |g.display[Preorder(g, rank, goal, 0)[j].0]|
  {
    ExplainIsPreorder(g, rank, goal, entity, 0);
    LinesRaise(g, Preorder(g, rank, goal, 0), entity);
  }

  /** Once the explanation of some children has raised, adding more children does not help. */
  lemma {:induction false} ExplainChildrenRaisePersists(g: Graph, rank: map<string, nat>, parent: string,
                                                        kids: seq<string>, j: nat, entity: nat, indent: nat)
    requires Ranked(g, rank) && Annotated(g) && parent in g.adj && Children(g, rank, parent, kids)
    requires j <= |kids| && ExplainChildren(g, rank, parent, kids[..j], entity, indent).None?
    ensures ExplainChildren(g, rank, parent, kids, entity, indent).None?
    decreases |kids| - j
  {
    if j < |kids| {
      assert kids[..j + 1][..j] == kids[..j];
      ExplainChildrenRaisePersists(g, rank, parent, kids, j + 1, entity, indent);
    } else {
      assert kids[..j] == kids;
    }
  }

  /** One more child's explanation follows those of the children before it. */
  lemma ExplainChildrenStep(g: Graph, rank: map<string, nat>, parent: string, kids: seq<string>,
                            j: nat, entity: nat, indent: nat)
    requires Ranked(g, rank) && Annotated(g) && parent in g.adj && Children(g, rank, parent, kids)
    requires j < |kids|
    ensures kids[j] in g.adj && rank[kids[j]] < rank[parent]
    ensures ExplainChildren(g, rank, parent, kids[..j + 1], entity, indent)
         == Cat(ExplainChildren(g, rank, parent, kids[..j], entity, indent), Explain(g, rank, kids[j], entity, indent))
  {
    assert kids[..j + 1][..j] == kids[..j];
  }

  /** Lines 166-168: the goal's own line. */
  method FormatLine(g: Graph, goal: string, entity: nat, index: nat) returns (line: string)
    requires goal in g.adj && goal in g.display && entity < |g.display[goal]|
    ensures Line(g, goal, entity, index) == Some(line)
  {
    var indent := Spaces(index);
    var because := if |g.adj[goal]| > 0 then Because else AndConnector;
    line := indent + RenderName(goal) + " is " + Show(g.display[goal][entity]) + because + "\n";
  }

  /** `generate_explanation` (lines 165-173), returning `None` where it raises IndexError. */
  method GenerateExplanation(g: Graph, ghost rank: map<string, nat>, goal: string, entity: nat, index: nat)
    returns (r: Option<string>)
    requires Ranked(g, rank) && Annotated(g) && goal in g.adj
    ensures r == Explain(g, rank, goal, entity, index)
    decreases rank[goal]
  {
    if entity >= |g.display[goal]| {
      return None;
    }
    var output := FormatLine(g, goal, entity, index);
    // The children's explanations are gathered apart and appended at the end.
    var rest := "";
    var kids := g.adj[goal];
    assert Children(g, rank, goal, kids);
    assert kids[..0] == [];
    var j := 0;
    while j < |kids|
      invariant 0 <= j <= |kids|
      invariant ExplainChildren(g, rank, goal, kids[..j], entity, index + 2) == Some(rest)
    {
      ExplainChildrenStep(g, rank, goal, kids, j, entity, index + 2);
      var sub := GenerateExplanation(g, rank, kids[j], entity, index + 2);
      if sub.None? {
        ExplainChildrenRaisePersists(g, rank, goal, kids, j + 1, entity, index + 2);
        return None;
      }
      rest := rest + sub.value;
      j := j + 1;
    }
    assert kids[..j] == kids;
    output := output + rest;
    return Some(output);
  }
}
