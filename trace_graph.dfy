/**
 * The dependency graph the explanation demo builds from an OpenFisca trace
 * (demos/explanation.py, lines 130-154).
 *
 * A trace maps each computed variable, written `name<period>`, to the
 * variables it was computed from and to its per-entity values.  Three
 * passes build a directed graph with one node per variable:
 *   1. every entry that is not a known-companion (`name_known<period>`)
 *      becomes a node carrying its `value` list, with an edge to each of
 *      its dependencies (networkx `DiGraph.add_node` / `add_edge`);
 *   2. every known-companion stores its value list as the `known`
 *      attribute of the node `name<period>`, which must already exist;
 *   3. every node gets a `display` list: its value where `known` is
 *      truthy, the string "unknown" elsewhere.
 *
 * Each pass is specified by a fold over the trace (`Pass1`, `Pass2`,
 * `Annotate`) and implemented by a method over a `DependencyGraph` object
 * whose fields are the graph's adjacency and node attributes.
 */
module TraceGraph {
  import opened Strings

  datatype Option<T> = None | Some(value: T)

  /** The two Python exceptions the demo can raise on a malformed trace. */
  datatype Error = KeyError(key: string) | IndexError

  datatype Result<T> = Ok(value: T) | Err(error: Error)

  /** A JSON scalar of the trace: booleans, integers and strings. */
  datatype Value = Bool(b: bool) | Int(i: int) | Str(s: string)

  /** What the display list shows for an entity whose value is not known. */
  const Unknown: Value := Str("unknown")

  /** Python truthiness of a JSON scalar, as `if known` tests it. */
  predicate Truthy(v: Value) {
    match v
    case Bool(b) => b
    case Int(i) => i != 0
    case Str(s) => s != ""
  }

  /** One trace entry: the variables it depends on and its per-entity values. */
  datatype Entry = Entry(dependencies: seq<string>, value: seq<Value>)

  /** The trace as the items of a JSON object, in document order. */
  type Trace = seq<(string, Entry)>

  /** A JSON object has no key twice. */
  predicate DistinctKeys(t: Trace) {
    forall i, j | 0 <= i < j < |t| :: t[i].0 != t[j].0
  }

  /** The marker of a known-companion variable. */
  const KnownMarker: string := "_known<"

  predicate IsKnownKey(k: string) {
    Contains(k, KnownMarker)
  }

  /** The variable a known-companion annotates: `K.replace("_known<", "<")`. */
  function CompanionOf(k: string): string {
    ReplaceAll(k, KnownMarker, "<")
  }

  /** `name_known<period>` is a known-companion, and it annotates `name<period>`. */
  lemma CompanionOfKnownKey(name: string, period: string)
    requires '<' !in name && '<' !in period
    ensures IsKnownKey(name + KnownMarker + period)
    ensures CompanionOf(name + KnownMarker + period) == name + "<" + period
  {
    var k := name + KnownMarker + period;
    assert k[|name|..][..|KnownMarker|] == KnownMarker;
    assert KnownMarker[..|KnownMarker| - 1] == "_known";
    ReplaceUniqueOccurrence(name, KnownMarker, period, "<");
  }

  /**
   * The graph: adjacency lists in insertion order (a networkx `DiGraph`'s
   * successor dictionary) and the three node attributes.  The nodes are the
   * keys of `adj`.
   */
  datatype Graph = Graph(
    adj: map<string, seq<string>>,
    value: map<string, seq<Value>>,
    known: map<string, seq<Value>>,
    display: map<string, seq<Value>>)

  const EmptyGraph: Graph := Graph(map[], map[], map[], map[])

  /** No element twice. */
  predicate NoDuplicates(s: seq<string>) {
    forall i, j | 0 <= i < j < |s| :: s[i] != s[j]
  }

  /** Every edge ends at a node. */
  predicate Closed(g: Graph) {
    forall u, w | u in g.adj && w in g.adj[u] :: w in g.adj
  }

  /** Adding an edge that already exists keeps its place in the adjacency list. */
  function AppendNew(s: seq<string>, x: string): seq<string> {
    if x in s then s else s + [x]
  }

  /** `AppendNew` every element of `xs`, from the left. */
  function Extend(s: seq<string>, xs: seq<string>): seq<string>
    decreases |xs|
  {
    if xs == [] then s else AppendNew(Extend(s, xs[..|xs| - 1]), xs[|xs| - 1])
  }

  /** The distinct elements of `xs` in order of first occurrence. */
  function Dedup(xs: seq<string>): seq<string> {
    Extend([], xs)
  }

  lemma {:induction false} ExtendElements(s: seq<string>, xs: seq<string>)
    ensures forall x :: x in Extend(s, xs) <==> x in s || x in xs
    ensures NoDuplicates(s) ==> NoDuplicates(Extend(s, xs))
    decreases |xs|
  {
    if xs != [] {
      var init := xs[..|xs| - 1];
      ExtendElements(s, init);
      assert xs == init + [xs[|xs| - 1]];
    }
  }

  lemma {:induction false} ExtendDistinct(s: seq<string>, xs: seq<string>)
    requires NoDuplicates(s + xs)
    ensures Extend(s, xs) == s + xs
    decreases |xs|
  {
    if xs != [] {
      var init := xs[..|xs| - 1];
      var last := xs[|xs| - 1];
      assert s + init == (s + xs)[..|s| + |init|];
      ExtendDistinct(s, init);
      assert (s + xs)[|s| + |init|] == last;
      assert s + init + [last] == s + xs;
    }
  }

  /** `Dedup` lists each element of its input once, and leaves a list without repeats as it is. */
  lemma DedupProperties(xs: seq<string>)
    ensures forall x :: x in Dedup(xs) <==> x in xs
    ensures NoDuplicates(Dedup(xs))
    ensures NoDuplicates(xs) ==> Dedup(xs) == xs
  {
    ExtendElements([], xs);
    if NoDuplicates(xs) {
      assert [] + xs == xs;
      ExtendDistinct([], xs);
    }
  }

  /** `add_node(k, value=v)`: creates `k` with no edges if needed and sets its value. */
  function WithNode(g: Graph, k: string, v: seq<Value>): Graph {
    g.(adj := if k in g.adj then g.adj else g.adj[k := []], value := g.value[k := v])
  }

  /** `add_edge(u, w)`: creates missing endpoints and appends `w` to `u`'s list once. */
  function WithEdge(g: Graph, u: string, w: string): Graph {
    var adj1 := if u in g.adj then g.adj else g.adj[u := []];
    var adj2 := if w in adj1 then adj1 else adj1[w := []];
    g.(adj := adj2[u := AppendNew(adj2[u], w)])
  }

  /** `add_edge(u, w)` for each `w` of `ws`, from the left. */
  function WithEdges(g: Graph, u: string, ws: seq<string>): Graph
    decreases |ws|
  {
    if ws == [] then g else WithEdge(WithEdges(g, u, ws[..|ws| - 1]), u, ws[|ws| - 1])
  }

  /** The first pass on one entry (lines 132-135). */
  function Step1(g: Graph, k: string, e: Entry): Graph {
    if IsKnownKey(k) then g else WithEdges(WithNode(g, k, e.value), k, e.dependencies)
  }

  /** The first pass over the trace, from graph `g` (lines 131-135). */
  function Pass1(g: Graph, t: Trace): Graph
    decreases |t|
  {
    if t == [] then g else Step1(Pass1(g, t[..|t| - 1]), t[|t| - 1].0, t[|t| - 1].1)
  }

  /** The variables the trace defines, known-companions excepted. */
  function DefinedKeys(t: Trace): set<string>
    decreases |t|
  {
    if t == [] then {}
    else DefinedKeys(t[..|t| - 1]) + (if IsKnownKey(t[|t| - 1].0) then {} else {t[|t| - 1].0})
  }

  /** The defined variables and everything they depend on. */
  function MentionedNodes(t: Trace): set<string>
    decreases |t|
  {
    if t == [] then {}
    else
      var (k, e) := t[|t| - 1];
      MentionedNodes(t[..|t| - 1])
        + (if IsKnownKey(k) then {} else {k} + set w | w in e.dependencies)
  }

  lemma {:induction false} WithEdgesEffect(g: Graph, u: string, ws: seq<string>)
    requires u in g.adj
    ensures WithEdges(g, u, ws).value == g.value
    ensures WithEdges(g, u, ws).known == g.known
    ensures WithEdges(g, u, ws).display == g.display
    ensures forall n :: n in WithEdges(g, u, ws).adj <==> n in g.adj || n in ws
    ensures WithEdges(g, u, ws).adj[u] == Extend(g.adj[u], ws)
    ensures forall n | n in WithEdges(g, u, ws).adj && n != u ::
              WithEdges(g, u, ws).adj[n] == if n in g.adj then g.adj[n] else []
    decreases |ws|
  {
    if ws != [] {
      var init := ws[..|ws| - 1];
      WithEdgesEffect(g, u, init);
      WithEdgeEffect(WithEdges(g, u, init), u, ws[|ws| - 1]);
    }
  }

  /** One edge from an existing node `u`: `w` becomes a node and is appended to `u`'s list if new. */
  lemma WithEdgeEffect(g: Graph, u: string, w: string)
    requires u in g.adj
    ensures WithEdge(g, u, w).value == g.value && WithEdge(g, u, w).known == g.known
    ensures WithEdge(g, u, w).display == g.display
    ensures WithEdge(g, u, w).adj.Keys == g.adj.Keys + {w}
    ensures WithEdge(g, u, w).adj[u] == AppendNew(g.adj[u], w)
    ensures forall n | n in WithEdge(g, u, w).adj && n != u ::
              WithEdge(g, u, w).adj[n] == if n in g.adj then g.adj[n] else []
  {
  }

  /** Adding the edges of a node keeps every edge ending at a node and every list free of repeats. */
  lemma WithEdgesClosed(g: Graph, u: string, ws: seq<string>)
    requires u in g.adj && Closed(g)
    requires forall n | n in g.adj :: NoDuplicates(g.adj[n])
    ensures Closed(WithEdges(g, u, ws))
    ensures forall n | n in WithEdges(g, u, ws).adj :: NoDuplicates(WithEdges(g, u, ws).adj[n])
  {
    WithEdgesEffect(g, u, ws);
    ExtendElements(g.adj[u], ws);
  }

  /**
   * The nodes of the first pass are the defined variables and their
   * dependencies; only defined variables carry a value; no known or display
   * attribute is set; every edge ends at a node; no adjacency list repeats.
   */
  lemma {:induction false} Pass1Shape(t: Trace)
    ensures forall n :: n in Pass1(EmptyGraph, t).adj <==> n in MentionedNodes(t)
    ensures forall n :: n in Pass1(EmptyGraph, t).value <==> n in DefinedKeys(t)
    ensures Pass1(EmptyGraph, t).known == map[] && Pass1(EmptyGraph, t).display == map[]
    ensures Closed(Pass1(EmptyGraph, t))
    ensures forall n | n in Pass1(EmptyGraph, t).adj :: NoDuplicates(Pass1(EmptyGraph, t).adj[n])
    decreases |t|
  {
    if t != [] {
      var init := t[..|t| - 1];
      var (k, e) := t[|t| - 1];
      Pass1Shape(init);
      if !IsKnownKey(k) {
        var g1 := WithNode(Pass1(EmptyGraph, init), k, e.value);
        WithEdgesEffect(g1, k, e.dependencies);
        WithEdgesClosed(g1, k, e.dependencies);
      }
    }
  }

  /** Each defined variable's node carries its entry's value list and its dependencies without repeats. */
  predicate EntriesHold(g: Graph, t: Trace) {
    forall i | 0 <= i < |t| && !IsKnownKey(t[i].0) ::
      t[i].0 in g.value && g.value[t[i].0] == t[i].1.value
      && t[i].0 in g.adj && g.adj[t[i].0] == Dedup(t[i].1.dependencies)
  }

  /** A node that is only depended upon has no edges. */
  predicate OthersEmpty(g: Graph, t: Trace) {
    forall n | n in g.adj && n !in DefinedKeys(t) :: g.adj[n] == []
  }

  lemma Step1Entries(g: Graph, init: Trace, k: string, e: Entry)
    requires EntriesHold(g, init) && OthersEmpty(g, init)
    requires forall i | 0 <= i < |init| :: init[i].0 != k
    requires k !in DefinedKeys(init)
    ensures EntriesHold(Step1(g, k, e), init + [(k, e)])
    ensures OthersEmpty(Step1(g, k, e), init + [(k, e)])
  {
    if IsKnownKey(k) {
      Step1SkipsCompanion(g, init, k, e);
    } else {
      var t := init + [(k, e)];
      assert t[..|t| - 1] == init;
      assert DefinedKeys(t) == DefinedKeys(init) + {k};
      var g1 := WithNode(g, k, e.value);
      assert g1.adj[k] == [];
      WithEdgesEffect(g1, k, e.dependencies);
      Step1EntriesHold(g, init, k, e);
      Step1OthersEmpty(g, init, k, e);
    }
  }

  /** A known-companion entry leaves the graph and the defined keys as they are. */
  lemma Step1SkipsCompanion(g: Graph, init: Trace, k: string, e: Entry)
    requires EntriesHold(g, init) && OthersEmpty(g, init) && IsKnownKey(k)
    ensures EntriesHold(g, init + [(k, e)]) && OthersEmpty(g, init + [(k, e)])
  {
    var t := init + [(k, e)];
    assert t[..|t| - 1] == init;
    assert DefinedKeys(t) == DefinedKeys(init);
    assert forall i | 0 <= i < |init| :: t[i] == init[i];
  }

  lemma Step1EntriesHold(g: Graph, init: Trace, k: string, e: Entry)
    requires EntriesHold(g, init) && !IsKnownKey(k)
    requires forall i | 0 <= i < |init| :: init[i].0 != k
    requires WithNode(g, k, e.value).adj[k] == []
    ensures EntriesHold(WithEdges(WithNode(g, k, e.value), k, e.dependencies), init + [(k, e)])
  {
    var t := init + [(k, e)];
    var g1 := WithNode(g, k, e.value);
    var g2 := WithEdges(g1, k, e.dependencies);
    WithEdgesEffect(g1, k, e.dependencies);
    forall i | 0 <= i < |t| && !IsKnownKey(t[i].0)
      ensures t[i].0 in g2.value && g2.value[t[i].0] == t[i].1.value
      ensures t[i].0 in g2.adj && g2.adj[t[i].0] == Dedup(t[i].1.dependencies)
    {
      if i < |init| {
        assert t[i] == init[i];
        assert t[i].0 != k;
      }
    }
  }

  lemma Step1OthersEmpty(g: Graph, init: Trace, k: string, e: Entry)
    requires OthersEmpty(g, init) && !IsKnownKey(k)
    ensures OthersEmpty(WithEdges(WithNode(g, k, e.value), k, e.dependencies), init + [(k, e)])
  {
    var t := init + [(k, e)];
    assert t[..|t| - 1] == init;
    assert DefinedKeys(t) == DefinedKeys(init) + {k};
    var g1 := WithNode(g, k, e.value);
    var g2 := WithEdges(g1, k, e.dependencies);
    WithEdgesEffect(g1, k, e.dependencies);
    forall n | n in g2.adj && n !in DefinedKeys(t)
      ensures g2.adj[n] == []
    {
      assert n != k;
    }
  }

  /**
   * With distinct keys, each defined variable's node carries that entry's
   * value list, and its adjacency list is its dependency list without
   * repeats; a node that is only depended upon has no edges.
   */
  lemma {:induction false} Pass1Entries(t: Trace)
    requires DistinctKeys(t)
    ensures EntriesHold(Pass1(EmptyGraph, t), t)
    ensures OthersEmpty(Pass1(EmptyGraph, t), t)
    decreases |t|
  {
    if t != [] {
      var init := t[..|t| - 1];
      var (k, e) := t[|t| - 1];
      assert DistinctKeys(init);
      Pass1Entries(init);
      DefinedKeysIndex(init, k);
      assert t == init + [(k, e)];
      Step1Entries(Pass1(EmptyGraph, init), init, k, e);
    }
  }

  /** `DefinedKeys` in terms of positions. */
  lemma {:induction false} DefinedKeysIndex(t: Trace, k: string)
    ensures k in DefinedKeys(t) <==> exists i | 0 <= i < |t| :: t[i].0 == k && !IsKnownKey(k)
    decreases |t|
  {
    if t != [] {
      var init := t[..|t| - 1];
      DefinedKeysIndex(init, k);
      if k in DefinedKeys(init) {
        var i :| 0 <= i < |init| && init[i].0 == k && !IsKnownKey(k);
        assert t[i] == init[i];
      }
      if exists i | 0 <= i < |t| :: t[i].0 == k && !IsKnownKey(k) {
        var i :| 0 <= i < |t| && t[i].0 == k && !IsKnownKey(k);
        if i < |t| - 1 {
          assert init[i] == t[i];
        }
      }
    }
  }

  /** The second pass on one entry (lines 137-139): `nodes[n]` raises KeyError for a missing node. */
  function Step2(g: Graph, k: string, e: Entry): Result<Graph> {
    if !IsKnownKey(k) then Ok(g)
    else
      var n := CompanionOf(k);
      if n in g.adj then Ok(g.(known := g.known[n := e.value])) else Err(KeyError(n))
  }

  /** The second pass over the trace (lines 136-139); it stops at the first error. */
  function Pass2(g: Graph, t: Trace): Result<Graph>
    decreases |t|
  {
    if t == [] then Ok(g)
    else
      match Pass2(g, t[..|t| - 1])
      case Err(e) => Err(e)
      case Ok(h) => Step2(h, t[|t| - 1].0, t[|t| - 1].1)
  }

  /** The companion of the `i`-th entry is a node of `g`, or the entry is not a companion. */
  predicate CompanionPresent(g: Graph, t: Trace, i: int)
    requires 0 <= i < |t|
  {
    IsKnownKey(t[i].0) ==> CompanionOf(t[i].0) in g.adj
  }

  /** A node is annotated by some known-companion of the trace. */
  predicate HasCompanion(t: Trace, n: string) {
    exists i | 0 <= i < |t| :: IsKnownKey(t[i].0) && CompanionOf(t[i].0) == n
  }

  /** No later entry is a companion of the same node as the `i`-th. */
  predicate LastCompanion(t: Trace, i: int)
    requires 0 <= i < |t|
  {
    forall j | i < j < |t| :: !IsKnownKey(t[j].0) || CompanionOf(t[j].0) != CompanionOf(t[i].0)
  }

  /** The second pass changes nothing but the known attribute. */
  lemma {:induction false} Pass2Frame(g: Graph, t: Trace)
    ensures Pass2(g, t).Ok? ==>
              Pass2(g, t).value.adj == g.adj && Pass2(g, t).value.value == g.value
              && Pass2(g, t).value.display == g.display
    decreases |t|
  {
    if t != [] {
      Pass2Frame(g, t[..|t| - 1]);
    }
  }

  /** The second pass succeeds exactly when every companion annotates an existing node. */
  lemma {:induction false} Pass2Success(g: Graph, t: Trace)
    ensures Pass2(g, t).Ok? <==> forall i | 0 <= i < |t| :: CompanionPresent(g, t, i)
    decreases |t|
  {
    if t != [] {
      var init := t[..|t| - 1];
      var last := |t| - 1;
      Pass2Success(g, init);
      Pass2Frame(g, init);
      assert forall i | 0 <= i < |init| :: init[i] == t[i];
      assert forall i | 0 <= i < |init| :: CompanionPresent(g, init, i) == CompanionPresent(g, t, i);
      if Pass2(g, init).Ok? {
        var h := Pass2(g, init).value;
        assert Pass2(g, t) == Step2(h, t[last].0, t[last].1);
        assert Pass2(g, t).Ok? <==> CompanionPresent(g, t, last);
      } else {
        assert !Pass2(g, t).Ok?;
      }
    }
  }

  /** A failing second pass reports the first companion whose node is missing. */
  lemma {:induction false} Pass2FirstError(g: Graph, t: Trace)
    ensures Pass2(g, t).Err? ==>
              exists i | 0 <= i < |t| ::
                !CompanionPresent(g, t, i) && Pass2(g, t).error == KeyError(CompanionOf(t[i].0))
                && forall j | 0 <= j < i :: CompanionPresent(g, t, j)
    decreases |t|
  {
    if t != [] {
      var init := t[..|t| - 1];
      Pass2FirstError(g, init);
      Pass2Success(g, init);
      Pass2Frame(g, init);
      assert forall i | 0 <= i < |init| :: init[i] == t[i];
      assert forall i | 0 <= i < |init| :: CompanionPresent(g, init, i) == CompanionPresent(g, t, i);
      if Pass2(g, init).Ok? && Pass2(g, t).Err? {
        assert !CompanionPresent(g, t, |t| - 1);
      }
    }
  }

  /** A successful second pass sets the known attribute of exactly the annotated nodes. */
  lemma {:induction false} Pass2KnownNodes(g: Graph, t: Trace)
    ensures Pass2(g, t).Ok? ==>
              forall n :: n in Pass2(g, t).value.known <==> n in g.known || HasCompanion(t, n)
    decreases |t|
  {
    if t != [] {
      var init := t[..|t| - 1];
      Pass2KnownNodes(g, init);
      if Pass2(g, t).Ok? {
        var h := Pass2(g, t).value;
        forall n
          ensures n in h.known <==> n in g.known || HasCompanion(t, n)
        {
          if HasCompanion(t, n) {
            var i :| 0 <= i < |t| && IsKnownKey(t[i].0) && CompanionOf(t[i].0) == n;
            if i < |t| - 1 {
              assert init[i] == t[i];
              assert IsKnownKey(init[i].0) && CompanionOf(init[i].0) == n;
            }
          }
          if HasCompanion(init, n) {
            var i :| 0 <= i < |init| && IsKnownKey(init[i].0) && CompanionOf(init[i].0) == n;
            assert init[i] == t[i];
            assert IsKnownKey(t[i].0) && CompanionOf(t[i].0) == n;
          }
        }
      }
    }
  }

  /** After a successful second pass a node's known attribute is the value list of the last companion naming it. */
  lemma {:induction false} Pass2KnownValues(g: Graph, t: Trace)
    ensures Pass2(g, t).Ok? ==>
              forall i | 0 <= i < |t| && IsKnownKey(t[i].0) && LastCompanion(t, i) ::
                CompanionOf(t[i].0) in Pass2(g, t).value.known
                && Pass2(g, t).value.known[CompanionOf(t[i].0)] == t[i].1.value
    decreases |t|
  {
    if t != [] {
      var init := t[..|t| - 1];
      Pass2KnownValues(g, init);
      if Pass2(g, t).Ok? {
        var h := Pass2(g, t).value;
        forall i | 0 <= i < |t| && IsKnownKey(t[i].0) && LastCompanion(t, i)
          ensures CompanionOf(t[i].0) in h.known && h.known[CompanionOf(t[i].0)] == t[i].1.value
        {
          if i < |t| - 1 {
            assert init[i] == t[i];
            assert forall j | i < j < |init| :: init[j] == t[j];
            assert LastCompanion(init, i);
          }
        }
      }
    }
  }

  /** `str(display)` in line 153: the value where `known` is truthy, "unknown" elsewhere; `zip` stops at the shorter list. */
  function DisplayRow(values: seq<Value>, knowns: seq<Value>): seq<Value> {
    var n := if |values| <= |knowns| then |values| else |knowns|;
    seq(n, i requires 0 <= i < n => if Truthy(knowns[i]) then values[i] else Unknown)
  }

  /** Every node has a value and a known attribute. */
  predicate HasAttributes(g: Graph) {
    forall n | n in g.adj :: n in g.value && n in g.known
  }

  /** Every node has all three attributes. */
  predicate Annotated(g: Graph) {
    forall n | n in g.adj :: n in g.value && n in g.known && n in g.display
  }

  /**
   * The third pass (lines 148-154): a node without a value or known
   * attribute raises KeyError; otherwise every node gets its display list.
   */
  function Annotate(g: Graph): Result<Graph> {
    if exists n | n in g.adj :: n !in g.value then Err(KeyError("value"))
    else if exists n | n in g.adj :: n !in g.known then Err(KeyError("known"))
    else Ok(g.(display := AnnotatedDisplay(g)))
  }

  /** The display attribute after the third pass: every node's display list replaced. */
  function AnnotatedDisplay(g: Graph): map<string, seq<Value>>
    requires HasAttributes(g)
  {
    g.display + DisplayRows(g, g.adj.Keys)
  }

  /** Every node of `nodes` has a value and a known attribute. */
  predicate AttributesOf(g: Graph, nodes: set<string>) {
    forall n | n in nodes :: n in g.value && n in g.known
  }

  /** The display lists of the nodes in `nodes`. */
  function DisplayRows(g: Graph, nodes: set<string>): map<string, seq<Value>>
    requires AttributesOf(g, nodes)
  {
    map n | n in nodes :: DisplayRow(g.value[n], g.known[n])
  }

  /** Annotating one more node updates the display map at that node only. */
  lemma DisplayRowsStep(g: Graph, todo: set<string>, n: string)
    requires todo <= g.adj.Keys && n in todo
    requires AttributesOf(g, g.adj.Keys - todo) && n in g.value && n in g.known
    ensures AttributesOf(g, g.adj.Keys - (todo - {n}))
    ensures g.display + DisplayRows(g, g.adj.Keys - (todo - {n}))
         == (g.display + DisplayRows(g, g.adj.Keys - todo))[n := DisplayRow(g.value[n], g.known[n])]
  {
    assert g.adj.Keys - (todo - {n}) == (g.adj.Keys - todo) + {n};
  }

  /** A node without a value or known attribute makes the third pass fail. */
  lemma AnnotateMissing(g: Graph, n: string)
    requires n in g.adj && (n !in g.value || n !in g.known)
    ensures Annotate(g).Err?
  {
  }

  /** With every attribute present, the third pass rewrites the display map only. */
  lemma AnnotateComplete(g: Graph)
    requires AttributesOf(g, g.adj.Keys)
    ensures Annotate(g) == Ok(g.(display := g.display + DisplayRows(g, g.adj.Keys)))
  {
  }

  /** All three passes over a trace. */
  function BuildSpec(t: Trace): Result<Graph> {
    match Pass2(Pass1(EmptyGraph, t), t)
    case Err(e) => Err(e)
    case Ok(h) => Annotate(h)
  }

  /**
   * Building the graph succeeds exactly when every companion annotates a
   * node, and every node is itself defined by the trace and annotated by a
   * companion: a dependency with no entry of its own, or a variable without
   * a companion, stops the demo with KeyError.  The graph built has the
   * first pass's nodes and edges and all three attributes on every node,
   * the display list being computed from the value and known lists.
   */
  lemma BuildOutcome(t: Trace)
    ensures BuildSpec(t).Ok? <==>
              (forall i | 0 <= i < |t| :: CompanionPresent(Pass1(EmptyGraph, t), t, i))
              && forall n | n in MentionedNodes(t) :: n in DefinedKeys(t) && HasCompanion(t, n)
    ensures BuildSpec(t).Ok? ==>
              var g := BuildSpec(t).value;
              g.adj == Pass1(EmptyGraph, t).adj && Annotated(g) && Closed(g)
              && forall n | n in g.adj :: g.display[n] == DisplayRow(g.value[n], g.known[n])
  {
    var g1 := Pass1(EmptyGraph, t);
    Pass1Shape(t);
    Pass2Success(g1, t);
    Pass2Frame(g1, t);
    Pass2KnownNodes(g1, t);
    if Pass2(g1, t).Ok? {
      var h := Pass2(g1, t).value;
      assert HasAttributes(h) <==> forall n | n in MentionedNodes(t) :: n in DefinedKeys(t) && HasCompanion(t, n);
      AnnotateOutcome(h);
      assert BuildSpec(t) == Annotate(h);
    }
  }

  /** The third pass succeeds exactly when every node has its attributes, and then only adds display lists. */
  lemma AnnotateOutcome(g: Graph)
    ensures Annotate(g).Ok? <==> HasAttributes(g)
    ensures Annotate(g).Ok? ==>
              Annotate(g).value == g.(display := Annotate(g).value.display) && Annotated(Annotate(g).value)
              && (Closed(g) ==> Closed(Annotate(g).value))
              && forall n | n in g.adj :: Annotate(g).value.display[n] == DisplayRow(g.value[n], g.known[n])
  {
  }

  /** A trace whose variable `a<p>` depends on `b<p>`, which has no entry. */
  const OrphanTrace: Trace := [("a<p>", Entry(["b<p>"], [Bool(true)])), ("a_known<p>", Entry([], [Bool(true)]))]

  /** A dependency with no entry of its own stops the demo: networkx keeps it as a node without a value. */
  lemma OrphanDependencyFails()
    ensures BuildSpec(OrphanTrace) == Err(KeyError("value"))
  {
    var t := OrphanTrace;
    var g1 := Pass1(EmptyGraph, t);
    OrphanTraceKeys();
    Pass1Shape(t);
    Pass2Success(g1, t);
    Pass2Frame(g1, t);
    assert CompanionPresent(g1, t, 0) && CompanionPresent(g1, t, 1);
    assert "b<p>" in Pass2(g1, t).value.adj && "b<p>" !in Pass2(g1, t).value.value;
  }

  lemma OrphanTraceKeys()
    ensures !IsKnownKey("a<p>") && IsKnownKey("a_known<p>") && CompanionOf("a_known<p>") == "a<p>"
    ensures MentionedNodes(OrphanTrace) == {"a<p>", "b<p>"}
    ensures DefinedKeys(OrphanTrace) == {"a<p>"}
  {
    var t := OrphanTrace;
    OrphanKeyNames();
    assert t[..1] == [t[0]];
    assert [t[0]][..0] == [];
  }

  lemma OrphanKeyNames()
    ensures !IsKnownKey("a<p>") && IsKnownKey("a_known<p>") && CompanionOf("a_known<p>") == "a<p>"
  {
    CompanionOfKnownKey("a", "p>");
    assert "a" + KnownMarker + "p>" == "a_known<p>";
    assert "a" + "<" + "p>" == "a<p>";
  }

  /** The mutable graph the demo builds: networkx's successor lists and node attributes. */
  class DependencyGraph {
    var adj: map<string, seq<string>>
    var value: map<string, seq<Value>>
    var known: map<string, seq<Value>>
    var display: map<string, seq<Value>>

    /** The graph's current state as a value. */
    function Snapshot(): Graph
      reads this
    {
      Graph(adj, value, known, display)
    }

    /** `nx.DiGraph()` */
    constructor ()
      ensures Snapshot() == EmptyGraph
    {
      adj := map[];
      value := map[];
      known := map[];
      display := map[];
    }

    /** `add_node(k, value=v)` */
    method AddNode(k: string, v: seq<Value>)
      modifies this
      ensures Snapshot() == WithNode(old(Snapshot()), k, v)
    {
      if k !in adj {
        adj := adj[k := []];
      }
      value := value[k := v];
    }

    /** `add_edge(u, w)` */
    method AddEdge(u: string, w: string)
      modifies this
      ensures Snapshot() == WithEdge(old(Snapshot()), u, w)
    {
      if u !in adj {
        adj := adj[u := []];
      }
      if w !in adj {
        adj := adj[w := []];
      }
      if w !in adj[u] {
        adj := adj[u := adj[u] + [w]];
      }
    }

    /** `nodes[n]['known'] = v`; false when `n` is not a node (KeyError). */
    method SetKnown(n: string, v: seq<Value>) returns (ok: bool)
      modifies this
      ensures ok == (n in old(adj))
      ensures Snapshot() == if ok then old(Snapshot()).(known := old(known)[n := v]) else old(Snapshot())
    {
      ok := n in adj;
      if ok {
        known := known[n := v];
      }
    }

    /** `nodes[n]['display'] = d` */
    method SetDisplay(n: string, d: seq<Value>)
      modifies this
      ensures Snapshot() == old(Snapshot()).(display := old(display)[n := d])
    {
      display := display[n := d];
    }
  }

  /** The first pass (lines 131-135). */
  method AddTraceEntries(g: DependencyGraph, t: Trace)
    modifies g
    ensures g.Snapshot() == Pass1(old(g.Snapshot()), t)
  {
    var j := 0;
    while j < |t|
      invariant 0 <= j <= |t|
      invariant g.Snapshot() == Pass1(old(g.Snapshot()), t[..j])
    {
      var (k, e) := t[j];
      assert t[..j + 1][..j] == t[..j];
      if !IsKnownKey(k) {
        g.AddNode(k, e.value);
        AddDependencies(g, k, e.dependencies);
      }
      j := j + 1;
    }
    assert t[..j] == t;
  }

  /** Lines 134-135: an edge from `k` to each of its dependencies, in order. */
  method AddDependencies(g: DependencyGraph, k: string, deps: seq<string>)
    modifies g
    ensures g.Snapshot() == WithEdges(old(g.Snapshot()), k, deps)
  {
    var d := 0;
    while d < |deps|
      invariant 0 <= d <= |deps|
      invariant g.Snapshot() == WithEdges(old(g.Snapshot()), k, deps[..d])
    {
      assert deps[..d + 1][..d] == deps[..d];
      g.AddEdge(k, deps[d]);
      d := d + 1;
    }
    assert deps[..d] == deps;
  }

  /** Once the second pass has failed on a prefix, it fails the same way on the whole trace. */
  lemma {:induction false} Pass2ErrorPersists(g: Graph, t: Trace, j: nat)
    requires j <= |t| && Pass2(g, t[..j]).Err?
    ensures Pass2(g, t) == Pass2(g, t[..j])
    decreases |t| - j
  {
    if j < |t| {
      assert t[..j + 1][..j] == t[..j];
      Pass2ErrorPersists(g, t, j + 1);
    } else {
      assert t[..j] == t;
    }
  }

  /** The second pass (lines 136-139); on error the graph is left as it was at the failing entry. */
  method AttachKnown(g: DependencyGraph, t: Trace) returns (err: Option<Error>)
    modifies g
    ensures Pass2(old(g.Snapshot()), t).Ok? ==> err == None && g.Snapshot() == Pass2(old(g.Snapshot()), t).value
    ensures Pass2(old(g.Snapshot()), t).Err? ==> err == Some(Pass2(old(g.Snapshot()), t).error)
  {
    ghost var g0 := g.Snapshot();
    var j := 0;
    while j < |t|
      invariant 0 <= j <= |t|
      invariant Pass2(g0, t[..j]) == Ok(g.Snapshot())
    {
      var (k, e) := t[j];
      assert t[..j + 1][..j] == t[..j];
      if IsKnownKey(k) {
        var ok := g.SetKnown(CompanionOf(k), e.value);
        if !ok {
          Pass2ErrorPersists(g0, t, j + 1);
          return Some(KeyError(CompanionOf(k)));
        }
      }
      j := j + 1;
    }
    assert t[..j] == t;
    return None;
  }

  /** The display list of one node (lines 151-153). */
  method BuildDisplayRow(values: seq<Value>, knowns: seq<Value>) returns (display: seq<Value>)
    ensures display == DisplayRow(values, knowns)
  {
    display := [];
    var i := 0;
    while i < |values| && i < |knowns|
      invariant 0 <= i <= |values| && i <= |knowns|
      invariant |display| == i
      invariant forall j | 0 <= j < i :: display[j] == if Truthy(knowns[j]) then values[j] else Unknown
    {
      display := display + [if Truthy(knowns[i]) then values[i] else Unknown];
      i := i + 1;
    }
  }

  /** The third pass (lines 148-154), visiting the nodes in any order. */
  method AnnotateDisplay(g: DependencyGraph) returns (err: Option<Error>)
    modifies g
    ensures err.Some? <==> Annotate(old(g.Snapshot())).Err?
    ensures err.None? ==> g.Snapshot() == Annotate(old(g.Snapshot())).value
  {
    ghost var g0 := g.Snapshot();
    var todo := g.adj.Keys;
    assert g0.display + DisplayRows(g0, g0.adj.Keys - todo) == g0.display;
    while todo != {}
      invariant todo <= g0.adj.Keys && AttributesOf(g0, g0.adj.Keys - todo)
      invariant g.adj == g0.adj && g.value == g0.value && g.known == g0.known
      invariant g.display == g0.display + DisplayRows(g0, g0.adj.Keys - todo)
      decreases todo
    {
      var n :| n in todo;
      if n !in g.value {
        AnnotateMissing(g0, n);
        return Some(KeyError("value"));
      }
      if n !in g.known {
        AnnotateMissing(g0, n);
        return Some(KeyError("known"));
      }
      var row := BuildDisplayRow(g.value[n], g.known[n]);
      DisplayRowsStep(g0, todo, n);
      g.SetDisplay(n, row);
      todo := todo - {n};
    }
    AnnotateComplete(g0);
    return None;
  }

  /** All three passes (lines 130-154); the graph is read-only afterwards. */
  method BuildGraph(t: Trace) returns (r: Result<Graph>)
    ensures r.Err? <==> BuildSpec(t).Err?
    ensures r.Ok? ==> r == BuildSpec(t)
  {
    var g := new DependencyGraph();
    AddTraceEntries(g, t);
    var err := AttachKnown(g, t);
    if err.Some? {
      return Err(err.value);
    }
    err := AnnotateDisplay(g);
    if err.Some? {
      return Err(err.value);
    }
    return Ok(g.Snapshot());
  }
}
